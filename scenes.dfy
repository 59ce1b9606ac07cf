/** The three precompiled scene programs and the combo index that picks one.
    The GL program handles are abstracted to the scene they were linked from. */
module Scenes {

  datatype Option<T> = None | Some(value: T)

  /** One linked program per fragment shader: scene1.glsl, scene2.glsl, scene3.glsl. */
  datatype Scene = Scene1 | Scene2 | Scene3

  /** Number of entries in the "Scene to render" combo. */
  const SCENE_COUNT: int := 3

  /** The program the combo entry at `item` stands for; an index outside the
      combo stands for none. */
  function SceneAt(item: int): (s: Option<Scene>)
    ensures s.Some? <==> 0 <= item < SCENE_COUNT
  {
    if item == 0 then Some(Scene1)
    else if item == 1 then Some(Scene2)
    else if item == 2 then Some(Scene3)
    else None
  }

  /** The combo entry that shows a scene. */
  function IndexOf(s: Scene): (item: int)
    ensures 0 <= item < SCENE_COUNT
  {
    match s
    case Scene1 => 0
    case Scene2 => 1
    case Scene3 => 2
  }

  /** Combo entries and scenes are in one-to-one correspondence. */
  lemma SceneIndexRoundTrip(s: Scene, item: int)
    ensures SceneAt(IndexOf(s)) == Some(s)
    ensures SceneAt(item) == Some(s) ==> IndexOf(s) == item
  {
  }

  /** The active program after the three `if (item == k)` tests of one frame:
      the scene the combo entry names, or the previous one when it names none. */
  function Selected(active: Scene, item: int): (r: Scene)
    ensures SceneAt(item).Some? ==> r == SceneAt(item).value
    ensures SceneAt(item).None? ==> r == active
  {
    var afterFirst := if item == 0 then Scene1 else active;
    var afterSecond := if item == 1 then Scene2 else afterFirst;
    if item == 2 then Scene3 else afterSecond
  }

  /** Re-applying the same combo index on the next frame changes nothing. */
  lemma SelectedIdempotent(active: Scene, item: int)
    ensures Selected(Selected(active, item), item) == Selected(active, item)
  {
  }

  /** A valid combo index decides the active program on its own: what was
      active before does not matter. */
  lemma SelectedForgetsPrevious(a: Scene, b: Scene, item: int)
    requires 0 <= item < SCENE_COUNT
    ensures Selected(a, item) == Selected(b, item)
  {
  }

  /** The active program after a sequence of frames whose combo indices are
      `items`, starting from `active`. */
  function SelectedAfter(active: Scene, items: seq<int>): Scene
  {
    if items == [] then active
    else Selected(SelectedAfter(active, items[..|items| - 1]), items[|items| - 1])
  }

  /** Frames that keep one valid combo index leave the active program on that
      scene; there is no implicit reset from frame to frame. */
  lemma SelectedAfterRepeated(active: Scene, items: seq<int>, item: int)
    requires |items| > 0 && 0 <= item < SCENE_COUNT
    requires forall k :: 0 <= k < |items| ==> items[k] == item
    ensures SelectedAfter(active, items) == SceneAt(item).value
  {
  }

  /** Frames whose combo indices are all out of range leave the active program
      as it was. */
  lemma {:induction false} SelectedAfterInvalid(active: Scene, items: seq<int>)
    requires forall k :: 0 <= k < |items| ==> SceneAt(items[k]).None?
    ensures SelectedAfter(active, items) == active
  {
    if items != [] {
      var init := items[..|items| - 1];
      assert forall k :: 0 <= k < |init| ==> init[k] == items[k];
      SelectedAfterInvalid(active, init);
    }
  }
}
