# Home IoT screens: room control and sensor charts

A model of the two pieces of logic in the home-monitoring app's screens that are more
than UI wiring.

- **Room control** (`screens/IotScreen.js`, module `IotScreen`). The screen keeps a
  temperature setpoint for the bedroom (`quarto`) and the living room (`sala`), clamped
  to [15, 29], and a light switch for each of the four rooms (`quarto`, `sala`,
  `cozinha`, `banheiro`). "Send data" turns both objects into one batch of sensor
  records: first one `temperatura` record per room key, then one `luz` record per light
  key. Sensor id 1 is the bedroom and 2 is every other room. A light is sent as 1/0.
  The POST is issued only when the batch is not empty. On mount the screen folds the
  fetched readings back into the two objects. A decorative timer colours each room's
  person icon from a random number in 0..10.
- **Sensor charts** (`screens/GraphScreen.js`, module `GraphScreen`). Fetched readings
  are filtered to a window ending at `now` (1 h, 24 h, 7 d or 30 d, inclusive lower
  bound). `allData` and any unrecognised picker value keep everything. Each chart then
  shows one dataset: one field of every remaining reading, next to its time label.

The per-room state is made of plain JavaScript objects. Module `Objects` models them as
a key/value map together with the order in which keys were first inserted, because
`Object.keys` order decides the order of the outgoing batch. Property assignment and
`{ ...prev, [k]: v }` keep an existing key in its place and list a new key last.

Modelling choices:
- Handlers are sequential transitions on values.
- Random draws, the clock (`now`) and the locale time formatter are parameters.
- Timestamps are integer milliseconds; `None` stands for a date that does not parse.
- A reading's `valor` is an integer.

Behaviour kept as the code has it:
- The fetch fold starts all four rooms at temperature 0. After a fetch, `roomValues`
  therefore has four keys, and the next batch also carries temperature 0 for the
  kitchen and the bathroom.
- A light reading for a room outside the four is kept and sent back in the next batch.
- Fetched temperatures are clamped to [15, 29], the same range as the buttons. The
  initial setpoint 0 is sent as it is and comes back from a fetch as 15.
- With no readings, the series builder still returns one dataset, whose `data` is
  empty.

## Model

| member | source | states |
|---|---|---|
| `IotScreen.Clamp` | screens/IotScreen.js:58 | the result always lies in [15, 29]. It equals the input inside that range, 15 below it and 29 above it |
| `IotScreen.HandleChangeTemperature` | screens/IotScreen.js:56-61 | for `quarto`/`sala` the room now holds the clamped value, inside [15, 29]. Any other room leaves the object unchanged. No other key changes value, the object invariant is preserved, and key order is kept when the room is already present; an accepted room that is absent is listed last |
| `IotScreen.ToggleLight` | screens/IotScreen.js:64-67 | the room's light is negated and every other room is unchanged. A room that is not yet present is switched on, because `!undefined` is true |
| `IotScreen.ToggleTwice` | screens/IotScreen.js:64-67 | toggling a present room twice gives back the original object. For an absent room it leaves the room present and off |
| `IotScreen.SensorId` | screens/IotScreen.js:78 | the sensor id is 1 exactly for `quarto`, and 2 otherwise |
| `IotScreen.TemperatureRecord` | screens/IotScreen.js:77-82 | a `temperatura` record for the room carries the stored value, with id 1 for `quarto` and 2 for every other room |
| `IotScreen.LightRecord` | screens/IotScreen.js:89-94 | a `luz` record's `valor` is 0 or 1, and it is 1 exactly when the light is on. Its id is 1 for `quarto` and 2 for every other room |
| `IotScreen.SendDataToServer` | screens/IotScreen.js:70-98 | the batch has one temperature record per `roomValues` key, in key order, followed by one light record per `lightStatus` key. Its length is the sum of the two key counts. The POST is issued iff the batch is non-empty |
| `IotScreen.LastIndexOf` | screens/IotScreen.js:140-146 | gives the index of a reading of the given kind for the room, with no later one like it, or reports that there is none |
| `IotScreen.FoldedTemperature` | screens/IotScreen.js:141-142 | the fold leaves 0 or a value in [15, 29], and always 0 for a room without a setpoint (the value is the clamp of the last matching reading) |
| `IotScreen.FoldedLight` | screens/IotScreen.js:143-144 | a room's light is left on only if some light reading for it has `valor` 1 (the last such reading decides) |
| `IotScreen.NewLightRooms` | screens/IotScreen.js:143-144 | lists the rooms outside the four that some light reading mentions. The list is duplicate-free and contains exactly those rooms |
| `IotScreen.FetchSensorData` | screens/IotScreen.js:126-149 | the temperature object has exactly the four rooms, in order, each holding the clamped value of its last temperature reading or 0. The light object has the four rooms followed by the other rooms with light readings, in order of first mention, each holding whether its last light reading has `valor` 1 |
| `IotScreen.SendThenFetchLights` | screens/IotScreen.js:140-146 | folding a batch assembled from the state gives back every light of that state |
| `IotScreen.SendThenFetchTemperatures` | screens/IotScreen.js:140-146 | folding a batch assembled from the state gives back every `quarto`/`sala` setpoint clamped to [15, 29] |
| `IotScreen.SendThenFetchSetpointsInRange` | screens/IotScreen.js:140-146 | a `quarto`/`sala` setpoint inside [15, 29] comes back unchanged |
| `IotScreen.SendThenFetchInitialSetpoints` | screens/IotScreen.js:7 | sending the initial state and fetching it back turns both setpoints from 0 into 15 |
| `IotScreen.SendThenFetchInitialLights` | screens/IotScreen.js:8-13 | sending the initial state and fetching it back leaves each of the four lights off |
| `IotScreen.OccupancyColor` | screens/IotScreen.js:39 | the colour is black iff the number is below 5, and blue iff it is 5 or more |
| `IotScreen.DrawOccupancy` | screens/IotScreen.js:37 | `floor(u * 11)` for a draw u in [0, 1) lies in 0..10 |
| `IotScreen.DrawColor` | screens/IotScreen.js:37-39 | a draw gives a black icon exactly when it is below 5/11 |
| `IotScreen.GenerateRandomNumbers` | screens/IotScreen.js:31-44 | both objects list exactly the four rooms, in order. Each room's number comes from its own draw and lies in 0..10, and its colour follows the occupancy rule |
| `Objects.Empty` | screens/IotScreen.js:32-33 | the empty object `{}` has no keys and satisfies the object invariant |
| `Objects.Get` | screens/IotScreen.js:65 | a property read is defined exactly for the object's keys, and then gives the stored value |
| `Objects.Put` | screens/IotScreen.js:142-144 | after the assignment the key holds the new value and every other key is unchanged. An existing key keeps its position and a new key is listed last. The object invariant is preserved |
| `GraphScreen.ParseTimeRange` | screens/GraphScreen.js:37-50 | each of the five picker strings selects its range. Any other string is unrecognised and kept as given |
| `GraphScreen.WindowMs` | screens/GraphScreen.js:38-49 | the windows are 3600000, 86400000, 604800000 and 2592000000 ms. `allData` and unrecognised values have no window |
| `GraphScreen.InWindow` | screens/GraphScreen.js:37-50 | `allData` and unrecognised ranges accept every reading. With a window, an unparsable date is rejected, and a timestamp is accepted iff it is at or after `now - window` |
| `GraphScreen.FilterSensorData` | screens/GraphScreen.js:33-52 | the result is no longer than the input, and every reading in it lies inside the window |
| `GraphScreen.FilterMembership` | screens/GraphScreen.js:35-45 | a reading is in the result iff it is in the input and its timestamp is at or after `now - window`. The bound is inclusive, and an unparsable date is dropped. Each in-window reading keeps as many copies as the input has, and other readings keep none |
| `GraphScreen.FilterIsSubsequence` | screens/GraphScreen.js:35 | the result is a subsequence of the input: relative order is kept and no record is altered |
| `GraphScreen.FilterKeepsAll` | screens/GraphScreen.js:46-49 | `allData` and any unrecognised range return the input unchanged |
| `GraphScreen.FilterCompose` | screens/GraphScreen.js:37-45 | filtering by a wider window and then by a narrower one gives the narrower filter's result |
| `GraphScreen.FilterNarrowerIsSubsequence` | screens/GraphScreen.js:37-49 | a narrower range's result is a subsequence of a wider range's result |
| `GraphScreen.FilterRangesNest` | screens/GraphScreen.js:37-50 | for a fixed `now`, lastHour ⊆ last24Hours ⊆ lastWeek ⊆ last30Days ⊆ allData, each as a subsequence, and allData is the whole input |
| `GraphScreen.Field` | screens/GraphScreen.js:59 | a field lookup is defined iff the reading has that field, and then gives that field's value |
| `GraphScreen.Series` | screens/GraphScreen.js:59 | there is one value per reading, and value i is the `dataKey` field of reading i |
| `GraphScreen.Labels` | screens/GraphScreen.js:55 | there is one label per reading, and label i is the formatted timestamp of reading i |
| `GraphScreen.CreateChartData` | screens/GraphScreen.js:54-66 | there is exactly one dataset, carrying the given label and colour. `labels` and `data` have the length of the readings and line up index by index. Empty input gives empty labels and data |
| `GraphScreen.SeriesKeepsSubsequence` | screens/GraphScreen.js:59 | the values taken from a subsequence of readings form a subsequence of the values |
| `GraphScreen.ChartNarrowerIsSubsequence` | screens/GraphScreen.js:54-66 | a chart's data under a narrower range is a subsequence of its data under a wider range |
| `GraphScreen.ChartKindOf` | screens/GraphScreen.js:92-103 | the chart kind is bar iff the type is "bar", radar iff it is "radar", and line otherwise |

## Left out

- Network I/O is not modelled: the `fetch` calls, JSON encoding and decoding, bearer-token headers, the server's reply and the `catch` branches that log errors. `SendDataToServer` reports whether the POST would be issued and with which body. `FetchSensorData` starts from the decoded array, so a non-array response is out of scope.
- `Math.random`, `setInterval`/`clearInterval` and the `useEffect` lifecycle are not modelled. Draws are a parameter in [0, 1).
- `new Date(...)` parsing and `toLocaleTimeString` are not modelled. Timestamps are integer milliseconds or `None`, and the label formatter is a parameter.
- JSX rendering, styles, pickers and chart components are UI and are left out. Only the chart-kind switch is kept. The `+`/`-` buttons are modelled only through `HandleChangeTemperature`.
- React scheduling is not modelled: the stale read of `lightStatus` inside `toggleLight` (the model reads the current state) and state updates after unmount.
- JavaScript numbers are modelled as unbounded integers. Fractional values, `NaN` from a missing `valor`, and a boolean `valor` (which `=== 1` rejects) are not modelled.
- JavaScript orders integer-like property names before all others. The model lists keys in insertion order only, which matches the room names the screen uses.
- `Objects.Dict` does not model an explicitly `undefined` property value. The `!== undefined` guards in `sendDataToServer` therefore always pass.
- The chart dataset's style fields (`borderColor`, `fill`, `tension`) are not modelled. The three `createChartData` calls for temperature, humidity and vibration are instances of `CreateChartData`.
- `screens/LoginScreen.js`, `screens/RegisterScreen.js`, `screens/RecoverScreen.js` and `screens/NavBar.js` are form wrappers around HTTP calls and navigation, and are not part of this model.
