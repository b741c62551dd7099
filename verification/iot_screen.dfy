/**
 * The room-control screen: temperature setpoints for the bedroom ("quarto") and the
 * living room ("sala"), a light switch for each of the four rooms, the batch of sensor
 * records the screen posts, the fold that rebuilds its state from fetched readings and
 * the decorative occupancy indicator. Every handler is a sequential state transition
 * on plain objects (see module Objects).
 */
module IotScreen {
  import opened Wrappers
  import opened Objects

  /** The rooms of the house, in the order the screen lists them. */
  const Rooms: seq<string> := ["quarto", "sala", "cozinha", "banheiro"]

  const MinSetpoint: int := 15
  const MaxSetpoint: int := 29

  /** Initial `roomValues`: only the two rooms with a thermostat, both at 0. */
  const InitialRoomValues: Dict<int> := Dict(["quarto", "sala"], map["quarto" := 0, "sala" := 0])

  /** Initial `lightStatus`: every room dark. */
  const InitialLightStatus: Dict<bool> :=
    Dict(Rooms, map["quarto" := false, "sala" := false, "cozinha" := false, "banheiro" := false])

  /** A sensor record as it travels to and from the backend. */
  datatype Reading = Reading(sensor_id: int, tipo_sensor: string, ambiente: string, valor: int)

  // ---------------------------------------------------------------------------
  // Temperature setpoints

  /** Only the bedroom and the living room have a setpoint. */
  predicate HasSetpoint(room: string) {
    room == "quarto" || room == "sala"
  }

  /** `Math.min(Math.max(v, 15), 29)`. */
  function Clamp(v: int): (r: int)
    ensures MinSetpoint <= r <= MaxSetpoint
    ensures MinSetpoint <= v <= MaxSetpoint ==> r == v
    ensures v < MinSetpoint ==> r == MinSetpoint
    ensures v > MaxSetpoint ==> r == MaxSetpoint
  {
    var atLeast := if v > MinSetpoint then v else MinSetpoint;
    if atLeast < MaxSetpoint then atLeast else MaxSetpoint
  }

  /**
   * `handleChangeTemperature(room, value)`: for a room with a setpoint the new value is
   * `value` clamped to [15, 29]; any other room leaves the state as it was.
   */
  function HandleChangeTemperature(roomValues: Dict<int>, room: string, value: int): (r: Dict<int>)
    ensures HasSetpoint(room) ==> Get(r, room) == Some(Clamp(value))
    ensures HasSetpoint(room) ==> MinSetpoint <= r.vals[room] <= MaxSetpoint
    ensures !HasSetpoint(room) ==> r == roomValues
    ensures forall k :: k != room ==> Get(r, k) == Get(roomValues, k)
    ensures room in roomValues.vals ==> r.keys == roomValues.keys
    ensures HasSetpoint(room) && room !in roomValues.vals ==> r.keys == roomValues.keys + [room]
    ensures Valid(roomValues) ==> Valid(r)
  {
    if HasSetpoint(room) then Put(roomValues, room, Clamp(value)) else roomValues
  }

  // ---------------------------------------------------------------------------
  // Lights

  /**
   * `toggleLight(room)`: the room's light becomes `!lightStatus[room]`; since
   * `!undefined` is `true`, a room not yet in the object is switched on.
   */
  function ToggleLight(lightStatus: Dict<bool>, room: string): (r: Dict<bool>)
    ensures room in lightStatus.vals ==> r.vals == lightStatus.vals[room := !lightStatus.vals[room]]
    ensures room !in lightStatus.vals ==> Get(r, room) == Some(true)
    ensures forall k :: k != room ==> Get(r, k) == Get(lightStatus, k)
    ensures room in lightStatus.vals ==> r.keys == lightStatus.keys
    ensures Valid(lightStatus) ==> Valid(r)
  {
    Put(lightStatus, room, Get(lightStatus, room) != Some(true))
  }

  /**
   * Toggling a room twice restores the state; for a room that was not in the object
   * it leaves that room present and off.
   */
  lemma ToggleTwice(lightStatus: Dict<bool>, room: string)
    ensures room in lightStatus.vals ==> ToggleLight(ToggleLight(lightStatus, room), room) == lightStatus
    ensures room !in lightStatus.vals ==>
      ToggleLight(ToggleLight(lightStatus, room), room) == Put(lightStatus, room, false)
  {
    var once := ToggleLight(lightStatus, room);
    var twice := ToggleLight(once, room);
    if room in lightStatus.vals {
      assert twice.vals == lightStatus.vals;
    } else {
      assert twice.vals == Put(lightStatus, room, false).vals;
    }
  }

  // ---------------------------------------------------------------------------
  // Outgoing batch

  /** The bedroom's sensors have id 1, every other room's id 2. */
  function SensorId(room: string): (id: int)
    ensures id == 1 <==> room == "quarto"
    ensures id == 1 || id == 2
  {
    if room == "quarto" then 1 else 2
  }

  /** The record that reports a room's temperature setpoint. */
  function TemperatureRecord(room: string, temperature: int): (r: Reading)
    ensures r.tipo_sensor == "temperatura" && r.ambiente == room && r.valor == temperature
    ensures room == "quarto" ==> r.sensor_id == 1
    ensures room != "quarto" ==> r.sensor_id == 2
  {
    Reading(SensorId(room), "temperatura", room, temperature)
  }

  /** The record that reports a room's light, encoded as 1 (on) or 0 (off). */
  function LightRecord(room: string, on: bool): (r: Reading)
    ensures r.tipo_sensor == "luz" && r.ambiente == room
    ensures r.valor == 1 <==> on
    ensures r.valor == 0 || r.valor == 1
    ensures room == "quarto" ==> r.sensor_id == 1
    ensures room != "quarto" ==> r.sensor_id == 2
  {
    Reading(SensorId(room), "luz", room, if on then 1 else 0)
  }

  /**
   * `batch` is what `sendDataToServer` assembles: one temperature record per key of
   * `roomValues`, then one light record per key of `lightStatus`, each part in key order.
   */
  ghost predicate IsBatchOf(batch: seq<Reading>, roomValues: Dict<int>, lightStatus: Dict<bool>) {
    && |batch| == |roomValues.keys| + |lightStatus.keys|
    && (forall i :: 0 <= i < |roomValues.keys| ==>
          roomValues.keys[i] in roomValues.vals &&
          batch[i] == TemperatureRecord(roomValues.keys[i], roomValues.vals[roomValues.keys[i]]))
    && (forall j :: 0 <= j < |lightStatus.keys| ==>
          lightStatus.keys[j] in lightStatus.vals &&
          batch[|roomValues.keys| + j] == LightRecord(lightStatus.keys[j], lightStatus.vals[lightStatus.keys[j]]))
  }

  /**
   * `sendDataToServer`: builds the batch and reports whether the POST is issued, which
   * happens exactly when the batch is not empty.
   */
  method SendDataToServer(roomValues: Dict<int>, lightStatus: Dict<bool>) returns (batch: seq<Reading>, posted: bool)
    requires Valid(roomValues) && Valid(lightStatus)
    ensures IsBatchOf(batch, roomValues, lightStatus)
    ensures |batch| == |roomValues.keys| + |lightStatus.keys|
    ensures posted <==> |batch| > 0
  {
    batch := [];
    for i := 0 to |roomValues.keys|
      invariant |batch| == i
      invariant forall m :: 0 <= m < i ==>
        batch[m] == TemperatureRecord(roomValues.keys[m], roomValues.vals[roomValues.keys[m]])
    {
      var room := roomValues.keys[i];
      batch := batch + [TemperatureRecord(room, roomValues.vals[room])];
    }
    ghost var temperatures := batch;
    for j := 0 to |lightStatus.keys|
      invariant |batch| == |roomValues.keys| + j
      invariant batch[..|roomValues.keys|] == temperatures
      invariant forall m :: 0 <= m < j ==>
        batch[|roomValues.keys| + m] == LightRecord(lightStatus.keys[m], lightStatus.vals[lightStatus.keys[m]])
    {
      var room := lightStatus.keys[j];
      batch := batch + [LightRecord(room, lightStatus.vals[room])];
    }
    assert forall i :: 0 <= i < |roomValues.keys| ==> batch[i] == batch[..|roomValues.keys|][i];
    posted := |batch| > 0;
  }

  // ---------------------------------------------------------------------------
  // Incoming fold

  predicate Matches(r: Reading, tipo: string, room: string) {
    r.tipo_sensor == tipo && r.ambiente == room
  }

  /** The index of the last reading of kind `tipo` for `room`, if there is one. */
  function LastIndexOf(data: seq<Reading>, tipo: string, room: string): (r: Option<nat>)
    ensures r.Some? ==> r.value < |data| && Matches(data[r.value], tipo, room)
    ensures r.Some? ==> forall j :: r.value < j < |data| ==> !Matches(data[j], tipo, room)
    ensures r.None? ==> forall j :: 0 <= j < |data| ==> !Matches(data[j], tipo, room)
    decreases |data|
  {
    if data == [] then None
    else if Matches(data[|data| - 1], tipo, room) then Some(|data| - 1)
    else LastIndexOf(data[..|data| - 1], tipo, room)
  }

  /** A reading that is the only one of its kind for its room is the last one. */
  lemma LastIndexOfUnique(data: seq<Reading>, tipo: string, room: string, i: nat)
    requires i < |data| && Matches(data[i], tipo, room)
    requires forall j :: 0 <= j < |data| && j != i ==> !Matches(data[j], tipo, room)
    ensures LastIndexOf(data, tipo, room) == Some(i)
  {
  }

  /**
   * The temperature the fetch fold leaves for `room`: the clamped value of the last
   * temperature reading for a room with a setpoint, 0 when there is none or the room
   * has no setpoint.
   */
  function FoldedTemperature(data: seq<Reading>, room: string): (t: int)
    ensures t == 0 || MinSetpoint <= t <= MaxSetpoint
    ensures !HasSetpoint(room) ==> t == 0
  {
    if !HasSetpoint(room) then 0
    else match LastIndexOf(data, "temperatura", room)
      case None => 0
      case Some(i) => Clamp(data[i].valor)
  }

  /** The light the fetch fold leaves for `room`: on exactly when its last light reading is 1. */
  function FoldedLight(data: seq<Reading>, room: string): (on: bool)
    ensures on ==> exists i :: 0 <= i < |data| && Matches(data[i], "luz", room) && data[i].valor == 1
  {
    match LastIndexOf(data, "luz", room)
    case None => false
    case Some(i) => data[i].valor == 1
  }

  /**
   * The rooms outside `Rooms` that light readings mention, in the order of their first
   * mention: the keys that the fold appends to the light object.
   */
  function NewLightRooms(data: seq<Reading>): (r: seq<string>)
    ensures forall i, j :: 0 <= i < j < |r| ==> r[i] != r[j]
    ensures forall k :: k in r ==> k !in Rooms
    ensures forall k :: k in r <==> k !in Rooms && exists i :: 0 <= i < |data| && Matches(data[i], "luz", k)
    decreases |data|
  {
    if data == [] then []
    else
      var earlier := NewLightRooms(data[..|data| - 1]);
      var last := data[|data| - 1];
      assert forall i :: 0 <= i < |data| - 1 ==> data[..|data| - 1][i] == data[i];
      if last.tipo_sensor == "luz" && last.ambiente !in Rooms && last.ambiente !in earlier
      then earlier + [last.ambiente]
      else earlier
  }

  /** How one more reading changes the temperatures the fold leaves behind. */
  lemma TemperatureFoldStep(s: seq<Reading>, x: Reading, k: string)
    ensures FoldedTemperature(s + [x], k) ==
      if x.tipo_sensor == "temperatura" && x.ambiente == k && HasSetpoint(k) then Clamp(x.valor)
      else FoldedTemperature(s, k)
  {
    assert (s + [x])[..|s|] == s;
  }

  /** How one more reading changes the lights the fold leaves behind. */
  lemma LightFoldStep(s: seq<Reading>, x: Reading, k: string)
    ensures FoldedLight(s + [x], k) ==
      if x.tipo_sensor == "luz" && x.ambiente == k then x.valor == 1 else FoldedLight(s, k)
  {
    assert (s + [x])[..|s|] == s;
  }

  /** How one more reading changes the rooms the fold appends to the light object. */
  lemma NewLightRoomsStep(s: seq<Reading>, x: Reading)
    ensures NewLightRooms(s + [x]) ==
      if x.tipo_sensor == "luz" && x.ambiente !in Rooms && x.ambiente !in NewLightRooms(s)
      then NewLightRooms(s) + [x.ambiente]
      else NewLightRooms(s)
  {
    assert (s + [x])[..|s|] == s;
  }

  /** The temperature object holds exactly what the fold over `s` leaves. */
  ghost predicate TemperaturesFolded(roomData: Dict<int>, s: seq<Reading>) {
    && Valid(roomData)
    && roomData.keys == Rooms
    && forall k :: k in roomData.vals ==> roomData.vals[k] == FoldedTemperature(s, k)
  }

  /** The light object holds exactly what the fold over `s` leaves. */
  ghost predicate LightsFolded(lightData: Dict<bool>, s: seq<Reading>) {
    && Valid(lightData)
    && lightData.keys == Rooms + NewLightRooms(s)
    && forall k :: k in lightData.vals ==> lightData.vals[k] == FoldedLight(s, k)
  }

  lemma TemperatureStep(roomData: Dict<int>, s: seq<Reading>, x: Reading)
    requires TemperaturesFolded(roomData, s)
    ensures TemperaturesFolded(
      if x.tipo_sensor == "temperatura" && HasSetpoint(x.ambiente) then Put(roomData, x.ambiente, Clamp(x.valor))
      else roomData, s + [x])
  {
    forall k ensures FoldedTemperature(s + [x], k) ==
      if x.tipo_sensor == "temperatura" && x.ambiente == k && HasSetpoint(k) then Clamp(x.valor)
      else FoldedTemperature(s, k)
    {
      TemperatureFoldStep(s, x, k);
    }
  }

  lemma LightStep(lightData: Dict<bool>, s: seq<Reading>, x: Reading)
    requires LightsFolded(lightData, s)
    ensures LightsFolded(if x.tipo_sensor == "luz" then Put(lightData, x.ambiente, x.valor == 1) else lightData, s + [x])
  {
    var r := if x.tipo_sensor == "luz" then Put(lightData, x.ambiente, x.valor == 1) else lightData;
    LightKeysStep(lightData, s, x);
    forall k | k in r.vals ensures r.vals[k] == FoldedLight(s + [x], k) {
      LightFoldStep(s, x, k);
      if k != x.ambiente || x.tipo_sensor != "luz" {
        assert Get(r, k) == Get(lightData, k);
      }
    }
  }

  lemma LightKeysStep(lightData: Dict<bool>, s: seq<Reading>, x: Reading)
    requires Valid(lightData) && lightData.keys == Rooms + NewLightRooms(s)
    ensures (if x.tipo_sensor == "luz" then Put(lightData, x.ambiente, x.valor == 1) else lightData).keys
      == Rooms + NewLightRooms(s + [x])
  {
    NewLightRoomsStep(s, x);
    if x.tipo_sensor == "luz" {
      assert x.ambiente in lightData.vals <==> x.ambiente in Rooms || x.ambiente in NewLightRooms(s);
      assert (Rooms + NewLightRooms(s)) + [x.ambiente] == Rooms + (NewLightRooms(s) + [x.ambiente]);
    }
  }

  /**
   * `fetchSensorData`, after the response is decoded: starts every room at temperature 0
   * and light off, then walks the readings in order. A temperature reading for a room
   * with a setpoint stores its clamped value, other temperature readings are ignored,
   * and a light reading stores `valor === 1` for its room, listed or not. The last
   * matching reading wins.
   */
  method FetchSensorData(data: seq<Reading>) returns (roomData: Dict<int>, lightData: Dict<bool>)
    ensures Valid(roomData) && Valid(lightData)
    ensures roomData.keys == Rooms
    ensures forall k :: k in roomData.vals ==> roomData.vals[k] == FoldedTemperature(data, k)
    ensures lightData.keys == Rooms + NewLightRooms(data)
    ensures forall k :: k in lightData.vals ==> lightData.vals[k] == FoldedLight(data, k)
  {
    roomData := Dict(Rooms, map["quarto" := 0, "sala" := 0, "cozinha" := 0, "banheiro" := 0]);
    lightData := InitialLightStatus;
    assert data[..0] == [];
    for i := 0 to |data|
      invariant TemperaturesFolded(roomData, data[..i])
      invariant LightsFolded(lightData, data[..i])
    {
      var item := data[i];
      assert data[..i + 1] == data[..i] + [item];
      TemperatureStep(roomData, data[..i], item);
      LightStep(lightData, data[..i], item);
      if item.tipo_sensor == "temperatura" && HasSetpoint(item.ambiente) {
        roomData := Put(roomData, item.ambiente, Clamp(item.valor));
      } else if item.tipo_sensor == "luz" {
        lightData := Put(lightData, item.ambiente, item.valor == 1);
      }
    }
    assert data[..|data|] == data;
  }

  /** Fetching a posted batch back restores every light exactly. */
  lemma SendThenFetchLights(batch: seq<Reading>, roomValues: Dict<int>, lightStatus: Dict<bool>, k: string)
    requires Valid(roomValues) && Valid(lightStatus)
    requires IsBatchOf(batch, roomValues, lightStatus)
    requires k in lightStatus.vals
    ensures FoldedLight(batch, k) == lightStatus.vals[k]
  {
    var n := |roomValues.keys|;
    var j :| 0 <= j < |lightStatus.keys| && lightStatus.keys[j] == k;
    forall m | 0 <= m < |batch| && m != n + j
      ensures !Matches(batch[m], "luz", k)
    {
      if m >= n {
        assert lightStatus.keys[m - n] != k;
      }
    }
    LastIndexOfUnique(batch, "luz", k, n + j);
  }

  /**
   * Fetching a posted batch back gives every `quarto`/`sala` setpoint clamped to
   * [15, 29]: a setpoint of 0, the initial value, comes back as 15.
   */
  lemma SendThenFetchTemperatures(batch: seq<Reading>, roomValues: Dict<int>, lightStatus: Dict<bool>, k: string)
    requires Valid(roomValues) && Valid(lightStatus)
    requires IsBatchOf(batch, roomValues, lightStatus)
    requires k in roomValues.vals && HasSetpoint(k)
    ensures FoldedTemperature(batch, k) == Clamp(roomValues.vals[k])
  {
    var n := |roomValues.keys|;
    var i :| 0 <= i < n && roomValues.keys[i] == k;
    forall m | 0 <= m < |batch| && m != i
      ensures !Matches(batch[m], "temperatura", k)
    {
      if m < n {
        assert roomValues.keys[m] != k;
      } else {
        var j := m - n;
        assert lightStatus.keys[j] in lightStatus.vals;
        assert batch[n + j].tipo_sensor == "luz";
      }
    }
    LastIndexOfUnique(batch, "temperatura", k, i);
  }

  /** In particular, every setpoint that lies in [15, 29] comes back unchanged. */
  lemma SendThenFetchSetpointsInRange(batch: seq<Reading>, roomValues: Dict<int>, lightStatus: Dict<bool>, k: string)
    requires Valid(roomValues) && Valid(lightStatus)
    requires IsBatchOf(batch, roomValues, lightStatus)
    requires k in roomValues.vals && HasSetpoint(k) && MinSetpoint <= roomValues.vals[k] <= MaxSetpoint
    ensures FoldedTemperature(batch, k) == roomValues.vals[k]
  {
    SendThenFetchTemperatures(batch, roomValues, lightStatus, k);
  }

  /** Sending the screen's initial state and fetching it back turns both setpoints from 0 into 15. */
  lemma SendThenFetchInitialSetpoints(batch: seq<Reading>)
    requires IsBatchOf(batch, InitialRoomValues, InitialLightStatus)
    ensures FoldedTemperature(batch, "quarto") == 15 && FoldedTemperature(batch, "sala") == 15
  {
    InitialStateValid();
    SendThenFetchTemperatures(batch, InitialRoomValues, InitialLightStatus, "quarto");
    SendThenFetchTemperatures(batch, InitialRoomValues, InitialLightStatus, "sala");
  }

  /** Sending the screen's initial state and fetching it back leaves every light off. */
  lemma SendThenFetchInitialLights(batch: seq<Reading>, k: string)
    requires IsBatchOf(batch, InitialRoomValues, InitialLightStatus)
    requires k in Rooms
    ensures !FoldedLight(batch, k)
  {
    InitialStateValid();
    SendThenFetchLights(batch, InitialRoomValues, InitialLightStatus, k);
  }

  lemma InitialStateValid()
    ensures Valid(InitialRoomValues) && Valid(InitialLightStatus)
  {
  }

  // ---------------------------------------------------------------------------
  // Occupancy indicator

  datatype IconColor = Black | Blue

  /** The person icon is black below 5 and blue from 5 on. */
  function OccupancyColor(n: int): (c: IconColor)
    ensures c == Black <==> n < 5
    ensures c == Blue <==> n >= 5
  {
    if n < 5 then Black else Blue
  }

  /** `Math.floor(u * 11)` for a draw `u` of `Math.random()`, which lies in [0, 1). */
  function DrawOccupancy(u: real): (n: int)
    requires 0.0 <= u < 1.0
    ensures 0 <= n <= 10
  {
    (u * 11.0).Floor
  }

  /** A draw shows a black icon exactly when it falls below 5/11. */
  lemma DrawColor(u: real)
    requires 0.0 <= u < 1.0
    ensures OccupancyColor(DrawOccupancy(u)) == Black <==> u < 5.0 / 11.0
  {
  }

  /**
   * `generateRandomNumbers`: one draw per room, in the order of `Rooms`, gives that
   * room's occupancy number and the colour of its icon.
   */
  method GenerateRandomNumbers(draws: seq<real>) returns (numbers: Dict<int>, colors: Dict<IconColor>)
    requires |draws| == |Rooms|
    requires forall i :: 0 <= i < |draws| ==> 0.0 <= draws[i] < 1.0
    ensures Valid(numbers) && Valid(colors)
    ensures numbers.keys == Rooms && colors.keys == Rooms
    ensures forall i :: 0 <= i < |Rooms| ==>
      && numbers.vals[Rooms[i]] == DrawOccupancy(draws[i])
      && 0 <= numbers.vals[Rooms[i]] <= 10
      && colors.vals[Rooms[i]] == OccupancyColor(numbers.vals[Rooms[i]])
  {
    numbers, colors := Empty(), Empty();
    assert forall i, j :: 0 <= i < j < |Rooms| ==> Rooms[i] != Rooms[j];
    for i := 0 to |Rooms|
      invariant Valid(numbers) && Valid(colors)
      invariant numbers.keys == Rooms[..i] && colors.keys == Rooms[..i]
      invariant forall m :: 0 <= m < i ==>
        && numbers.vals[Rooms[m]] == DrawOccupancy(draws[m])
        && colors.vals[Rooms[m]] == OccupancyColor(numbers.vals[Rooms[m]])
    {
      var room := Rooms[i];
      assert Rooms[..i + 1] == Rooms[..i] + [room];
      assert room !in Rooms[..i];
      var number := DrawOccupancy(draws[i]);
      numbers := Put(numbers, room, number);
      colors := Put(colors, room, if number < 5 then Black else Blue);
    }
  }
}
