# VAS shader preview: frame bookkeeping model

VAS ("Visible Angle Shading") is a small OpenGL program that links three
fragment-shader scenes against one vertex shader, draws the selected scene on
a full-screen quad, times each draw with two GPU timestamp queries, and shows
two ImGui windows: "Scene" with the scene picker (main.cpp:128-144) and
"FPS Monitor" with the frame-rate chart (main.cpp:240-273).

This project models the deterministic bookkeeping inside that render loop:

- `Timing`: the elapsed GPU ticks, the unsigned 64-bit difference of the two
  timestamps, with its wrap-around.
- `Scenes`: the three scene programs, the "Scene to render" combo index and
  the rule that turns the index into the active program.
- `FpsHistory`: the frame-rate history as a value. Each frame appends one
  sample and erases the oldest when there are more than 500. `Replay` gives the
  history after any number of frames, and `LastN` is the reference it is
  proved against.
- `FpsChart`: the readings of the "FPS Monitor" window: current rate,
  average, minimum, maximum and frame time.
- `RenderLoop`: a `Session` class holding what `main` keeps between frames:
  the active program, the static combo index and the static history vector.
  Its methods update those fields in place. `Run` drives a sequence of frames
  and is proved to leave the last 500 rates and the scene the combo indices
  select.

The source's `GLuint` program handles become the datatype `Scene`. The frame
rate of each frame is an input to the model, because it is derived from the
timer by floating-point conversion. Frame rates and their sums are exact
`real`s.

Four behaviours of the program that the model keeps as they are:

- An index outside 0..2 matches none of the three tests, so the active
  program stays as it was (main.cpp:134-142).
- Each push is followed by at most one erase of the front element, taken
  when the size exceeds 500 (main.cpp:148-149). `Pushed` and
  `ReplayKeepsLatest` show that one erase keeps the size within 500.
- The three programs are linked once before the loop, and scene 1 is the
  initial choice (main.cpp:32-57).
- Each frame draws with the program chosen by the previous frames. The combo
  and the three tests run after the draw call (main.cpp:102-107 and 133-142).
  So a new selection takes effect on the next frame.

## Model

| member | source | states |
|---|---|---|
| `Timing.ElapsedTicks` | main.cpp:116-120 | adding the elapsed ticks to the start timestamp modulo 2^64 gives the end timestamp; without wrap-around it is the plain difference |
| `Timing.ElapsedTicksUnique` | main.cpp:120 | the wrapped difference is the only 64-bit tick count that leads from start to end |
| `Scenes.SceneAt` | main.cpp:131-133 | a combo index names a scene exactly when it is 0, 1 or 2 |
| `Scenes.IndexOf` | main.cpp:131 | every scene has a combo entry in 0..2 |
| `Scenes.SceneIndexRoundTrip` | main.cpp:131-142 | combo entries and scenes correspond one to one: index 0, 1, 2 is scene 1, 2, 3 and back |
| `Scenes.Selected` | main.cpp:134-142 | after the three tests, the active program is the scene the index names, or the previous one when the index names none |
| `Scenes.SelectedIdempotent` | main.cpp:130-142 | keeping the same combo index on the next frame leaves the active program unchanged |
| `Scenes.SelectedForgetsPrevious` | main.cpp:134-142 | a valid index decides the active program whatever was active before |
| `Scenes.SelectedAfterRepeated` | main.cpp:130-142 | frames that keep one valid index end on that index's scene, with no reset between frames |
| `Scenes.SelectedAfterInvalid` | main.cpp:130-142 | frames whose indices are all out of range leave the active program as it was |
| `FpsHistory.LastN` | main.cpp:146-150 | reference window: the last n elements in order, or all when fewer |
| `FpsHistory.Pushed` | main.cpp:146-150 | a push keeps a history of at most 500 within 500 and puts the new sample last; below 500 it only appends and earlier samples keep their places; at 500 samples 1..499 shift down by one and the length stays 500 |
| `FpsHistory.PushedLastN` | main.cpp:147-149 | pushing onto the window of the last 500 values gives the window of the last 500 values including the new one |
| `FpsHistory.ReplayKeepsLatest` | main.cpp:146-150 | from any history within the bound, any number of pushes leaves exactly the last 500 of all values seen, in push order |
| `FpsHistory.ReplayFromEmpty` | main.cpp:146-150 | from an empty history, N pushes leave min(N, 500) samples, namely the last ones pushed, oldest first |
| `FpsChart.Current` | main.cpp:248 | the current reading is the last sample, or 0 for an empty history |
| `FpsChart.MinOf` | main.cpp:252 | the minimum of a non-empty history is one of its samples and no sample is smaller |
| `FpsChart.MaxOf` | main.cpp:253 | the maximum of a non-empty history is one of its samples and no sample is larger |
| `FpsChart.FrameTimeDivisor` | main.cpp:270 | the frame-time divisor is always positive: the current rate when positive, 1 otherwise |
| `FpsChart.FrameTimeMs` | main.cpp:270 | the frame time is positive; it is the period (1000 / rate) of a positive current rate, and 1000 ms otherwise |
| `FpsChart.Average` | main.cpp:242-246 | the accumulating loop yields the mean: 0 for an empty history, sum / size otherwise |
| `FpsChart.SumAtLeast` | main.cpp:244 | if every sample is at least lo, the running sum is at least size * lo |
| `FpsChart.SumAtMost` | main.cpp:244 | if every sample is at most hi, the running sum is at most size * hi |
| `FpsChart.MeanWithin` | main.cpp:242-246 | bounds that hold of every sample of a non-empty history hold of its average |
| `FpsChart.MeanBetweenExtremes` | main.cpp:242-253 | the average of a non-empty history lies between its minimum and maximum |
| `FpsChart.DrawFpsChart` | main.cpp:238-274 | on a non-empty history the readings are the last sample, the mean, a minimum and maximum that are samples bounding all others, and the frame time of the current rate |
| `FpsChart.ThreeSampleReadings` | main.cpp:242-253 | for rates 30, 60, 90: current 90, average 60, minimum 30, maximum 90 |
| `RenderLoop.Session.constructor` | main.cpp:57 | before the first frame scene 1 is active, the static combo index is 0 and the static history is empty |
| `RenderLoop.Session.SelectScene` | main.cpp:130-142 | the combo index is stored; indices 0, 1, 2 make scene 1, 2, 3 active; any other index leaves the active program unchanged |
| `RenderLoop.Session.PushFrameRate` | main.cpp:146-150 | keeps the history within 500; below 500 the push only appends; at 500 it drops the oldest sample and appends the new one |
| `RenderLoop.Session.Frame` | main.cpp:102-152 | one frame draws the program active when it starts, then selects the scene, pushes the rate, and the chart reads that rate as current, the mean of the new history, a minimum and maximum that are samples bounding all others, and that rate's frame time |
| `RenderLoop.Session.Run` | main.cpp:93-160 | frame k draws the program selected by the indices of the frames before it; afterwards the history is the last 500 rates, the active program is the one the indices select in turn, and the index is the last one given |
| `RenderLoop.TenFramesOnSceneTwo` | main.cpp:93-152 | a fresh session that keeps index 1 for ten frames draws scene 1 on the first frame and scene 2 on frames 2 to 10, leaves scene 2 active, and ends with all ten rates in order |
| `RenderLoop.RunTenFramesOnSceneTwo` | main.cpp:57-160 | running ten frames on a fresh session with index 1 kept draws scene 1 on frame 1 and scene 2 on frames 2 to 10, leaves scene 2 active and the history equal to the ten rates in order |

## Left out

- Window and context creation (`InitWindow`), the resize callback, buffer swap and event polling: these are platform I/O.
- Shader source loading (`LoadShaderSource`), compiling and linking (`CreateScene`, `glLinkProgram`) and the `MessageBoxA` error report: these are file I/O and foreign GL and Win32 calls. Each linked program is represented by its `Scene`.
- The quad's vertex and index buffers, the draw call and the `iTime` uniform taken from `clock()`: these are GPU state and wall-clock time.
- The busy-wait on `GL_QUERY_RESULT_AVAILABLE`: it waits on an asynchronous device and has no termination argument. The two timestamps are inputs to `Timing.ElapsedTicks`.
- The floating-point steps are left out: ticks to milliseconds, the rate `1 / (ms / 1000)` (including its division by zero when no time elapsed), and the 10% range padding of the plot. Float rounding of the sum and the average is not modelled either. Each frame's rate is an input `real`.
- The ImGui drawing calls (`PlotLines`, `Text`, the overlay string): they are output only. The `Combo` is the one input, and its effect is modelled as the index passed to `SelectScene`.
- FpsChart.DrawFpsChart: requires a non-empty history. On an empty history the source dereferences the end iterator of `std::min_element` and `std::max_element`, which is undefined. The render loop never reaches that case, because it pushes a rate before every chart call.
- FpsChart.MinOf: defined only on a non-empty history, for the same reason.
- FpsChart.MaxOf: defined only on a non-empty history, for the same reason.
