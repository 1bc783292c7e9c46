/** The dashboard screen's live telemetry: four readings kept in component state,
    each written by its own realtime-database listener, the low-moisture status
    derived from them, and the notification record written on low moisture. */
module Dashboard {
  import opened Wrappers
  import opened JsText

  /** The four realtime-database paths the screen listens to. */
  datatype Metric = Moisture | Humidity | Celsius | Fahrenheit

  /** The screen's four state cells; `None` is the initial `null`. A reading is a
      JavaScript number, taken here as an exact real. */
  datatype Readings = Readings(
    moisture: Option<real>,
    humidity: Option<real>,
    celsius: Option<real>,
    fahrenheit: Option<real>)

  const InitialReadings := Readings(None, None, None, None)

  function Get(r: Readings, m: Metric): Option<real> {
    match m
    case Moisture => r.moisture
    case Humidity => r.humidity
    case Celsius => r.celsius
    case Fahrenheit => r.fahrenheit
  }

  /** One listener callback: the metric it listens to and `snapshot.val()`. */
  datatype Snapshot = Snapshot(metric: Metric, val: Option<real>)

  /** What one callback does to the state: a non-null value replaces the reading
      of its own metric, a null one is dropped. */
  function Deliver(r: Readings, s: Snapshot): (r': Readings)
    ensures Get(r', s.metric) == if s.val.Some? then s.val else Get(r, s.metric)
    ensures forall m :: m != s.metric ==> Get(r', m) == Get(r, m)
  {
    if s.val.None? then r
    else
      match s.metric
      case Moisture => r.(moisture := s.val)
      case Humidity => r.(humidity := s.val)
      case Celsius => r.(celsius := s.val)
      case Fahrenheit => r.(fahrenheit := s.val)
  }

  /** The state after a run of callbacks, delivered one after another. */
  function Replay(r: Readings, events: seq<Snapshot>): Readings
    decreases |events|
  {
    if events == [] then r else Replay(Deliver(r, events[0]), events[1..])
  }

  /** The reading of `m` that the last non-null snapshot of `m` in `events`
      carried, or `initial` when there is none. */
  function LastGood(events: seq<Snapshot>, m: Metric, initial: Option<real>): (v: Option<real>)
    ensures v == initial || v.Some?
    decreases |events|
  {
    if events == [] then initial
    else
      var e := events[|events| - 1];
      if e.metric == m && e.val.Some? then e.val else LastGood(events[..|events| - 1], m, initial)
  }

  lemma {:induction false} ReplaySnoc(r: Readings, events: seq<Snapshot>, e: Snapshot)
    ensures Replay(r, events + [e]) == Deliver(Replay(r, events), e)
    decreases |events|
  {
    if events != [] {
      assert (events + [e])[1..] == events[1..] + [e];
      ReplaySnoc(Deliver(r, events[0]), events[1..], e);
    }
  }

  /** Last good value wins: after any run of callbacks each metric holds the value
      of its latest non-null snapshot, or what it held before if none came.
      Snapshots of other metrics and null snapshots play no part. */
  lemma {:induction false} ReplayKeepsLastGood(r: Readings, events: seq<Snapshot>, m: Metric)
    ensures Get(Replay(r, events), m) == LastGood(events, m, Get(r, m))
    decreases |events|
  {
    if events != [] {
      var front := events[..|events| - 1];
      var e := events[|events| - 1];
      assert events == front + [e];
      ReplaySnoc(r, front, e);
      ReplayKeepsLastGood(r, front, m);
    }
  }

  /** From the freshly mounted screen, a metric stays null until a non-null
      snapshot of it arrives. */
  lemma NullUntilFirstReading(events: seq<Snapshot>, m: Metric)
    requires forall i :: 0 <= i < |events| ==> events[i].metric != m || events[i].val.None?
    ensures Get(Replay(InitialReadings, events), m) == None
  {
    ReplayKeepsLastGood(InitialReadings, events, m);
    NoGoodReading(events, m, None);
  }

  lemma {:induction false} NoGoodReading(events: seq<Snapshot>, m: Metric, initial: Option<real>)
    requires forall i :: 0 <= i < |events| ==> events[i].metric != m || events[i].val.None?
    ensures LastGood(events, m, initial) == initial
    decreases |events|
  {
    if events != [] {
      NoGoodReading(events[..|events| - 1], m, initial);
    }
  }

  /** `moisture !== null && moisture < 40`: the one condition behind the ring
      colour, the status text and the notification. */
  predicate NeedsWater(moisture: Option<real>) {
    moisture.Some? && moisture.value < 40.0
  }

  datatype RingColor = Red | Green

  datatype Status = Status(ring: RingColor, text: string)

  const WaterText := "Water your plant"
  const WellText := "The plant is doing well"

  /** The colour of the progress ring and the status line under the reading. */
  function PlantStatus(moisture: Option<real>): (s: Status)
    ensures s.ring == Red <==> moisture.Some? && moisture.value < 40.0
    ensures s.text == WaterText <==> s.ring == Red
    ensures s.text == WaterText || s.text == WellText
  {
    Status(if NeedsWater(moisture) then Red else Green,
           if NeedsWater(moisture) then WaterText else WellText)
  }

  /** The title written into the record: "Your plant is thirsty!" and the seedling
      emoji U+1F331. The source file holds that emoji's UTF-8 bytes, which a
      cp1252 reading shows as four other characters; the model takes the emoji. */
  const ThirstyTitle := "Your plant is thirsty! \U{1F331}"

  /** The document written to the `notifications` collection. */
  datatype NotificationRecord = NotificationRecord(title: string, moisture: real, timestamp: nat)

  datatype NotificationDoc = NotificationDoc(key: string, data: NotificationRecord)

  /** `${uid}-${time}`: the document's key. */
  function NotificationKey(uid: string, time: nat): (k: string)
    ensures |k| >= |uid| + 2
    ensures k[..|uid|] == uid && k[|uid|] == '-'
    ensures forall i :: |uid| < i < |k| ==> IsDecimalDigit(k[i])
    ensures DecimalValue(k[|uid| + 1..]) == time
  {
    var k := uid + "-" + NatToString(time);
    assert k[|uid| + 1..] == NatToString(time);
    NatToStringRoundTrip(time);
    k
  }

  /** The document built by `schedulePushNotification`. The key and the
      timestamp come from two separate reads of the clock, `keyTime` and
      `stampTime`, which need not agree. */
  function BuildNotification(uid: string, moisture: real, keyTime: nat, stampTime: nat): (d: NotificationDoc)
    ensures d.key == NotificationKey(uid, keyTime)
    ensures d.data.title == ThirstyTitle && d.data.moisture == moisture && d.data.timestamp == stampTime
  {
    NotificationDoc(NotificationKey(uid, keyTime), NotificationRecord(ThirstyTitle, moisture, stampTime))
  }

  /** The key determines both the user and the clock reading, whatever characters
      the user id holds: the digits after the last `-` are the time. So two
      notifications of one user in different milliseconds never share a document. */
  lemma NotificationKeyInjective(uid1: string, t1: nat, uid2: string, t2: nat)
    ensures NotificationKey(uid1, t1) == NotificationKey(uid2, t2) <==> uid1 == uid2 && t1 == t2
  {
    var k1, k2 := NotificationKey(uid1, t1), NotificationKey(uid2, t2);
    if k1 == k2 {
      if |uid1| != |uid2| {
        // the shorter id's key holds a digit where the longer id's key holds its `-`
        assert false;
      }
      assert uid1 == k1[..|uid1|] == uid2;
    }
  }

  /** The mount-time effect: with an empty dependency list it runs once, against
      the moisture the first render saw, and schedules a notification only on low
      moisture. */
  function MountCheck(moistureAtFirstRender: Option<real>, uid: string, keyTime: nat, stampTime: nat): (n: Option<NotificationDoc>)
    ensures n.Some? <==> PlantStatus(moistureAtFirstRender).ring == Red
    ensures n.Some? ==>
              n.value.data.moisture == moistureAtFirstRender.value
              && n.value.data.title == ThirstyTitle
              && n.value.key == NotificationKey(uid, keyTime)
              && n.value.data.timestamp == stampTime
  {
    if NeedsWater(moistureAtFirstRender)
    then Some(BuildNotification(uid, moistureAtFirstRender.value, keyTime, stampTime))
    else None
  }

  /** The first render sees the initial null moisture, so the mount-time check
      never schedules a notification, whatever the sensor later reports. */
  lemma MountCheckNeverFires(uid: string, keyTime: nat, stampTime: nat)
    ensures MountCheck(InitialReadings.moisture, uid, keyTime, stampTime) == None
  {
  }

  /** The screen's state cells, written by the four listener callbacks. */
  class DashboardState {
    var moisture: Option<real>
    var humidity: Option<real>
    var celsius: Option<real>
    var fahrenheit: Option<real>

    function Current(): Readings
      reads this
    {
      Readings(moisture, humidity, celsius, fahrenheit)
    }

    /** `useState(null)` four times. */
    constructor ()
      ensures Current() == InitialReadings
    {
      moisture, humidity, celsius, fahrenheit := None, None, None, None;
    }

    /** The `/plant/soilMoisture` callback. */
    method OnMoisture(val: Option<real>)
      modifies this
      ensures Current() == Deliver(old(Current()), Snapshot(Moisture, val))
    {
      if val.Some? {
        moisture := val;
      }
    }

    /** The `/plant/humidity` callback. */
    method OnHumidity(val: Option<real>)
      modifies this
      ensures Current() == Deliver(old(Current()), Snapshot(Humidity, val))
    {
      if val.Some? {
        humidity := val;
      }
    }

    /** The `/plant/celsius` callback. */
    method OnCelsius(val: Option<real>)
      modifies this
      ensures Current() == Deliver(old(Current()), Snapshot(Celsius, val))
    {
      if val.Some? {
        celsius := val;
      }
    }

    /** The `/plant/fahrenheit` callback. */
    method OnFahrenheit(val: Option<real>)
      modifies this
      ensures Current() == Deliver(old(Current()), Snapshot(Fahrenheit, val))
    {
      if val.Some? {
        fahrenheit := val;
      }
    }
  }

  /** A sensor that goes silent keeps its last reading on screen: the status
      stays red after a null snapshot follows a low one. */
  method SilentSensorScenario() {
    var d := new DashboardState();
    d.OnMoisture(Some(35.0));
    d.OnHumidity(Some(60.0));
    d.OnMoisture(None);
    assert d.moisture == Some(35.0) && d.celsius == None;
    assert PlantStatus(d.moisture) == Status(Red, WaterText);
    d.OnMoisture(Some(55.0));
    assert PlantStatus(d.moisture) == Status(Green, WellText);
  }
}
