/** The frame-rate history: a window over the most recent samples.
    Each frame appends one sample; when the history then holds more than
    MAX_SAMPLES entries, the oldest one is erased. These functions give the
    value the history takes; RenderLoop.Session keeps it in a field. */
module FpsHistory {

  /** The bound tested after every push. */
  const MAX_SAMPLES: int := 500

  /** The last `n` elements of `s`, or all of `s` when it is shorter. */
  function LastN<T>(s: seq<T>, n: nat): (r: seq<T>)
    ensures |r| == if |s| < n then |s| else n
    ensures forall i :: 0 <= i < |r| ==> r[i] == s[|s| - |r| + i]
  {
    if |s| <= n then s else s[|s| - n..]
  }

  /** The history after one push of `x`: append, then erase the front element
      once if the bound is exceeded. */
  function Pushed<T>(h: seq<T>, x: T): (r: seq<T>)
    ensures |h| <= MAX_SAMPLES ==> |r| <= MAX_SAMPLES
    ensures |r| > 0 && r[|r| - 1] == x
    ensures |h| < MAX_SAMPLES ==> |r| == |h| + 1 && forall i :: 0 <= i < |h| ==> r[i] == h[i]
    ensures |h| >= MAX_SAMPLES ==> |r| == |h| && forall i :: 0 <= i < |h| - 1 ==> r[i] == h[i + 1]
  {
    var grown := h + [x];
    if |grown| > MAX_SAMPLES then grown[1..] else grown
  }

  /** The history after pushing every element of `xs`, in order, onto `h`. */
  function Replay<T>(h: seq<T>, xs: seq<T>): seq<T>
  {
    if xs == [] then h else Pushed(Replay(h, xs[..|xs| - 1]), xs[|xs| - 1])
  }

  /** One push keeps a window of the last MAX_SAMPLES values a window of the
      last MAX_SAMPLES values. */
  lemma PushedLastN<T>(s: seq<T>, x: T)
    ensures Pushed(LastN(s, MAX_SAMPLES), x) == LastN(s + [x], MAX_SAMPLES)
  {
    var w := LastN(s, MAX_SAMPLES);
    var p := Pushed(w, x);
    var e := LastN(s + [x], MAX_SAMPLES);
    assert |p| == |e|;
    forall i | 0 <= i < |p|
      ensures p[i] == e[i]
    {
      if i < |p| - 1 {
        if |w| < MAX_SAMPLES {
          assert p[i] == w[i];
        } else {
          assert p[i] == w[i + 1];
        }
      }
    }
  }

  /** Starting from a history within the bound, any number of pushes leaves
      exactly the last MAX_SAMPLES of all the values seen, in push order. */
  lemma {:induction false} ReplayKeepsLatest<T>(h: seq<T>, xs: seq<T>)
    requires |h| <= MAX_SAMPLES
    ensures Replay(h, xs) == LastN(h + xs, MAX_SAMPLES)
  {
    if xs == [] {
      assert h + xs == h;
    } else {
      var init, x := xs[..|xs| - 1], xs[|xs| - 1];
      assert init + [x] == xs;
      assert Replay(h, xs) == Pushed(Replay(h, init), x);
      ReplayKeepsLatest(h, init);
      PushedLastN(h + init, x);
      assert (h + init) + [x] == h + xs;
    }
  }

  /** From an empty history, N pushes leave min(N, MAX_SAMPLES) samples: the
      last ones pushed, oldest first. */
  lemma ReplayFromEmpty<T>(xs: seq<T>)
    ensures |Replay([], xs)| == if |xs| < MAX_SAMPLES then |xs| else MAX_SAMPLES
    ensures forall i :: 0 <= i < |Replay([], xs)| ==>
              Replay([], xs)[i] == xs[|xs| - |Replay([], xs)| + i]
  {
    ReplayKeepsLatest([], xs);
    assert [] + xs == xs;
  }
}
