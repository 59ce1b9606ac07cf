/** The state the render loop carries from frame to frame: the active scene
    program, the persistent combo index and the frame-rate history. The
    source keeps them as a local and two function-level statics of `main`;
    here they are the fields of one session object. */
module RenderLoop {
  import opened Scenes
  import opened FpsHistory
  import opened FpsChart

  /** What one frame of the loop receives from outside: the combo index the
      user left selected and the frame rate derived from the GPU timer. */
  datatype FrameInput = FrameInput(item: int, fps: real)

  function ItemsOf(frames: seq<FrameInput>): (items: seq<int>)
    ensures |items| == |frames|
    ensures forall k :: 0 <= k < |frames| ==> items[k] == frames[k].item
  {
    seq(|frames|, k requires 0 <= k < |frames| => frames[k].item)
  }

  function RatesOf(frames: seq<FrameInput>): (rates: seq<real>)
    ensures |rates| == |frames|
    ensures forall k :: 0 <= k < |frames| ==> rates[k] == frames[k].fps
  {
    seq(|frames|, k requires 0 <= k < |frames| => frames[k].fps)
  }

  class Session {
    var active: Scene
    var item: int
    var history: seq<real>

    /** The history never holds more than MAX_SAMPLES frame rates. */
    ghost predicate Valid()
      reads this
    {
      |history| <= MAX_SAMPLES
    }

    /** Before the first frame: scene 1 is active, the combo shows entry 0
        and no frame rate has been recorded. */
    constructor ()
      ensures Valid()
      ensures active == Scene1 && item == 0 && history == []
    {
      active := Scene1;
      item := 0;
      history := [];
    }

    /** The combo writes `choice` into the persistent index, then the three
        tests switch the active program to the scene it names, if any. */
    method SelectScene(choice: int)
      modifies this`item, this`active
      ensures item == choice
      ensures active == Selected(old(active), choice)
      ensures 0 <= choice < SCENE_COUNT ==> active == SceneAt(choice).value
      ensures !(0 <= choice < SCENE_COUNT) ==> active == old(active)
    {
      item := choice;
      if item == 0 {
        active := Scene1;
      }
      if item == 1 {
        active := Scene2;
      }
      if item == 2 {
        active := Scene3;
      }
    }

    /** Append this frame's rate; if the history then exceeds the bound,
        erase its front element. One erase suffices because the bound held
        before the push. */
    method PushFrameRate(fps: real)
      requires Valid()
      modifies this`history
      ensures Valid()
      ensures history == Pushed(old(history), fps)
      ensures |old(history)| < MAX_SAMPLES ==> history == old(history) + [fps]
      ensures |old(history)| == MAX_SAMPLES ==> history == old(history)[1..] + [fps]
    {
      history := history + [fps];
      if |history| > MAX_SAMPLES {
        history := history[1..];
      }
    }

    /** One iteration of the render loop's bookkeeping. The draw uses the
        program active when the frame starts; the combo and the scene tests
        run after it, then the history push, then the chart readings of the
        new history. */
    method Frame(input: FrameInput) returns (drawn: Scene, readout: Readout)
      requires Valid()
      modifies this
      ensures Valid()
      ensures drawn == old(active)
      ensures item == input.item
      ensures active == Selected(old(active), input.item)
      ensures history == Pushed(old(history), input.fps)
      ensures readout.current == input.fps
      ensures readout.average == Mean(history)
      ensures readout.minimum in history && readout.maximum in history
      ensures forall i :: 0 <= i < |history| ==> readout.minimum <= history[i] <= readout.maximum
      ensures readout.frameTimeMs == FrameTimeMs(input.fps)
    {
      drawn := active;
      SelectScene(input.item);
      PushFrameRate(input.fps);
      readout := DrawFpsChart(history);
    }

    /** Runs the loop over a sequence of frames; `drawn[k]` is the program
        frame k draws. */
    method Run(frames: seq<FrameInput>) returns (drawn: seq<Scene>)
      requires Valid()
      modifies this
      ensures Valid()
      ensures |drawn| == |frames|
      ensures forall k :: 0 <= k < |frames| ==> drawn[k] == SelectedAfter(old(active), ItemsOf(frames[..k]))
      ensures history == Replay(old(history), RatesOf(frames))
      ensures history == LastN(old(history) + RatesOf(frames), MAX_SAMPLES)
      ensures active == SelectedAfter(old(active), ItemsOf(frames))
      ensures frames != [] ==> item == frames[|frames| - 1].item
      ensures frames == [] ==> item == old(item)
    {
      drawn := [];
      var i := 0;
      while i < |frames|
        invariant 0 <= i <= |frames|
        invariant Valid()
        invariant |drawn| == i
        invariant forall k :: 0 <= k < i ==> drawn[k] == SelectedAfter(old(active), ItemsOf(frames[..k]))
        invariant history == Replay(old(history), RatesOf(frames[..i]))
        invariant active == SelectedAfter(old(active), ItemsOf(frames[..i]))
        invariant i > 0 ==> item == frames[i - 1].item
        invariant i == 0 ==> item == old(item)
      {
        var f := frames[..i + 1];
        assert f[..i] == frames[..i];
        assert RatesOf(f)[..i] == RatesOf(frames[..i]);
        assert ItemsOf(f)[..i] == ItemsOf(frames[..i]);
        var d, _ := Frame(frames[i]);
        drawn := drawn + [d];
        i := i + 1;
      }
      assert frames[..|frames|] == frames;
      ReplayKeepsLatest(old(history), RatesOf(frames));
    }
  }

  /** A fresh session that keeps combo entry 1 for ten frames draws scene 1
      on the first frame, whose selection comes after its draw, and scene 2
      on frames 2 to 10 (frame n draws what the first n - 1 frames selected).
      Scene 2 stays active afterwards, and the history holds the ten rates. */
  lemma TenFramesOnSceneTwo(frames: seq<FrameInput>)
    requires |frames| == 10
    requires forall k :: 0 <= k < |frames| ==> frames[k].item == 1
    ensures SelectedAfter(Scene1, ItemsOf(frames[..0])) == Scene1
    ensures forall n :: 1 <= n <= |frames| ==> SelectedAfter(Scene1, ItemsOf(frames[..n])) == Scene2
    ensures Replay([], RatesOf(frames)) == RatesOf(frames)
  {
    assert ItemsOf(frames[..0]) == [];
    forall n | 1 <= n <= |frames|
      ensures SelectedAfter(Scene1, ItemsOf(frames[..n])) == Scene2
    {
      SelectedAfterRepeated(Scene1, ItemsOf(frames[..n]), 1);
    }
    ReplayFromEmpty(RatesOf(frames));
  }

  /** The same scenario on a session object: construct it, run the ten
      frames, and read off the drawn programs and the final state. */
  method RunTenFramesOnSceneTwo(frames: seq<FrameInput>) returns (s: Session, drawn: seq<Scene>)
    requires |frames| == 10
    requires forall k :: 0 <= k < |frames| ==> frames[k].item == 1
    ensures |drawn| == 10 && drawn[0] == Scene1
    ensures forall k :: 1 <= k < 10 ==> drawn[k] == Scene2
    ensures s.active == Scene2 && s.item == 1
    ensures s.history == RatesOf(frames)
  {
    s := new Session();
    drawn := s.Run(frames);
    TenFramesOnSceneTwo(frames);
    assert drawn[0] == SelectedAfter(Scene1, ItemsOf(frames[..0]));
    forall k | 1 <= k < 10
      ensures drawn[k] == Scene2
    {
      assert drawn[k] == SelectedAfter(Scene1, ItemsOf(frames[..k]));
    }
    assert frames[..10] == frames;
  }
}
