/** Bounded FIFO buffers as the server keeps them: an array that is
    `push`ed to and then `shift`ed once when it grows past its capacity.
    Used for every per-device history (capacity 200) and for the log
    (capacity 1000). */
module Buffers {

  /** The newest `cap` elements of `s`, oldest first; all of `s` when it
      holds no more than `cap`. */
  function Window<T>(s: seq<T>, cap: nat): (r: seq<T>)
    ensures |r| == if |s| <= cap then |s| else cap
    ensures s == s[..|s| - |r|] + r
  {
    if |s| <= cap then s else s[|s| - cap..]
  }

  /** `buf.push(x); if (buf.length > cap) buf.shift();` */
  function Push<T>(buf: seq<T>, x: T, cap: nat): (r: seq<T>)
    ensures |buf| <= |r| <= |buf| + 1
    ensures |buf| <= cap ==> |r| <= cap
    ensures cap > 0 ==> |r| > 0 && r[|r| - 1] == x
    ensures |buf| < cap ==> r == buf + [x]
    ensures buf + [x] == (buf + [x])[..|buf| + 1 - |r|] + r
  {
    var grown := buf + [x];
    if |grown| > cap then grown[1..] else grown
  }

  /** Pushes the elements of `xs` one after the other. */
  function PushAll<T>(buf: seq<T>, xs: seq<T>, cap: nat): (r: seq<T>)
    ensures |buf| <= cap ==> |r| <= cap
    decreases |xs|
  {
    if xs == [] then buf else PushAll(Push(buf, xs[0], cap), xs[1..], cap)
  }

  /** Pushing `x` and then the elements of `rest` is pushing `[x] + rest`. */
  lemma PushAllCons<T>(buf: seq<T>, x: T, rest: seq<T>, cap: nat)
    ensures PushAll(buf, [x] + rest, cap) == PushAll(Push(buf, x, cap), rest, cap)
  {
    assert ([x] + rest)[1..] == rest;
  }

  /** Pushing onto the window of a stream gives the window of the longer
      stream: the buffer drops exactly the oldest element. */
  lemma PushWindow<T>(s: seq<T>, x: T, cap: nat)
    requires cap > 0
    ensures Push(Window(s, cap), x, cap) == Window(s + [x], cap)
  {
    var grown := s + [x];
    if |s| < cap {
      assert Window(s, cap) == s && Window(grown, cap) == grown;
    } else if |s| == cap {
      assert Window(s, cap) == s && Window(grown, cap) == grown[1..];
    } else {
      var w := s[|s| - cap..];
      assert Window(s, cap) == w && Window(grown, cap) == grown[|s| + 1 - cap..];
      assert (w + [x])[1..] == grown[|s| + 1 - cap..];
    }
  }

  /** A capped buffer fed from empty always holds the last `cap` elements
      it was given, oldest first. */
  lemma {:induction false} PushAllWindow<T>(s: seq<T>, xs: seq<T>, cap: nat)
    requires cap > 0
    ensures PushAll(Window(s, cap), xs, cap) == Window(s + xs, cap)
    decreases |xs|
  {
    if xs != [] {
      var s' := s + [xs[0]];
      assert s' + xs[1..] == s + xs;
      PushWindow(s, xs[0], cap);
      PushAllWindow(s', xs[1..], cap);
      calc {
        PushAll(Window(s, cap), xs, cap);
        PushAll(Push(Window(s, cap), xs[0], cap), xs[1..], cap);
        PushAll(Window(s', cap), xs[1..], cap);
        Window(s' + xs[1..], cap);
      }
    }
  }
}
