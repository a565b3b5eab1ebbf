/**
 * The cyclic colour animation: one interpolation segment per palette entry, from
 * that entry to the next one (wrapping around), each segment chained to its
 * successor so that the animation never ends.  Segments are addressed by index:
 * segment i is followed by segment (i + 1) % N.
 */
module ColorChain {

  /** A colour as red, green and blue channels. */
  datatype Rgb = Rgb(r: real, g: real, b: real)

  /** The "deep tone" palette, #C7000B through #C70044, in animation order. */
  const DeepTone: seq<Rgb> := [
    Rgb(0xC7 as real, 0x00 as real, 0x0B as real),
    Rgb(0xD2 as real, 0x83 as real, 0x00 as real),
    Rgb(0xDF as real, 0xD0 as real, 0x00 as real),
    Rgb(0x7B as real, 0xAA as real, 0x17 as real),
    Rgb(0x00 as real, 0x87 as real, 0x3C as real),
    Rgb(0x00 as real, 0x8A as real, 0x83 as real),
    Rgb(0x00 as real, 0x8D as real, 0xCB as real),
    Rgb(0x00 as real, 0x5A as real, 0xA0 as real),
    Rgb(0x18 as real, 0x18 as real, 0x78 as real),
    Rgb(0x80 as real, 0x00 as real, 0x73 as real),
    Rgb(0xC6 as real, 0x00 as real, 0x6F as real),
    Rgb(0xC7 as real, 0x00 as real, 0x44 as real)
  ]

  /** How long each segment lasts, in milliseconds. */
  const SegmentDurationMs: nat := 2000

  /** One segment of the animation: where it starts, where it ends, how long it takes. */
  datatype Segment = Segment(from: Rgb, to: Rgb, durationMs: nat)

  /** The index of the segment chained after segment `i` of `n`: the next one, or the first after the last. */
  function Successor(i: nat, n: nat): (j: nat)
    requires i < n
    ensures j < n
    ensures i + 1 < n ==> j == i + 1
    ensures i + 1 == n ==> j == 0
  {
    (i + 1) % n
  }

  /** The segments built from a palette, one per entry. */
  function Segments(palette: seq<Rgb>): (s: seq<Segment>)
    ensures |s| == |palette|
    ensures forall i :: 0 <= i < |s| ==> s[i].durationMs == SegmentDurationMs
  {
    seq(|palette|, i requires 0 <= i < |palette| =>
      Segment(palette[i], palette[Successor(i, |palette|)], SegmentDurationMs))
  }

  /**
   * Segment i runs from palette entry i to the palette entry after it, and ends
   * on the colour its successor starts from: the animation has no jump at a
   * segment boundary.
   */
  lemma SegmentsContinuous(palette: seq<Rgb>, i: nat)
    requires i < |palette|
    ensures Segments(palette)[i].from == palette[i]
    ensures Segments(palette)[i].to == palette[(i + 1) % |palette|]
    ensures Segments(palette)[i].to == Segments(palette)[Successor(i, |palette|)].from
  {
  }

  /** The palette has twelve colours, so the animation has twelve segments. */
  lemma DeepToneHasTwelveSegments()
    ensures |DeepTone| == 12 && |Segments(DeepTone)| == 12
    ensures Segments(DeepTone)[11].from == Rgb(0xC7 as real, 0x00 as real, 0x44 as real)
    ensures Segments(DeepTone)[11].to == DeepTone[0]
  {
  }

  /** The segment reached from segment `i` of `n` by following `k` chain links. */
  function Follow(i: nat, k: nat, n: nat): (j: nat)
    requires i < n
    ensures j < n
    decreases k
  {
    if k == 0 then i else Follow(Successor(i, n), k - 1, n)
  }

  /**
   * Within one turn, following `k` links from segment `i` moves `k` places round
   * the circle: to `i + k`, or past the last segment and on from the first.
   */
  lemma {:induction false} FollowWithinTurn(i: nat, k: nat, n: nat)
    requires i < n && i + k < 2 * n
    ensures Follow(i, k, n) == if i + k < n then i + k else i + k - n
    decreases k
  {
    if k > 0 {
      FollowWithinTurn(Successor(i, n), k - 1, n);
    }
  }

  /** Following `a` links and then `b` more is following `a + b` links. */
  lemma {:induction false} FollowCompose(i: nat, a: nat, b: nat, n: nat)
    requires i < n
    ensures Follow(Follow(i, a, n), b, n) == Follow(i, a + b, n)
    decreases a
  {
    if a > 0 {
      FollowCompose(Successor(i, n), a - 1, b, n);
    }
  }

  /** After N links the chain is back where it started: the walk is a cycle. */
  lemma FollowReturns(i: nat, n: nat)
    requires i < n
    ensures Follow(i, n, n) == i
  {
    FollowWithinTurn(i, n, n);
  }

  /** No shorter walk returns: the cycle has length exactly N. */
  lemma FollowNoEarlyReturn(i: nat, k: nat, n: nat)
    requires i < n && 0 < k < n
    ensures Follow(i, k, n) != i
  {
    FollowWithinTurn(i, k, n);
  }

  /** Every segment is reached from every segment within N links. */
  lemma FollowReachesAll(i: nat, j: nat, n: nat)
    requires i < n && j < n
    ensures exists k :: 0 <= k < n && Follow(i, k, n) == j
  {
    var k := if i <= j then j - i else j + n - i;
    FollowWithinTurn(i, k, n);
  }

  /** Following links is periodic with period N: the chain never reaches a last segment. */
  lemma FollowPeriodic(i: nat, k: nat, n: nat)
    requires i < n
    ensures Follow(i, k + n, n) == Follow(i, k, n)
  {
    FollowCompose(i, k, n, n);
    FollowReturns(Follow(i, k, n), n);
  }

  /**
   * One tween: an interpolation between two colours, the tweens chained after it
   * and whether it is playing.
   */
  class Tween {
    const from: Rgb
    const to: Rgb
    const durationMs: nat
    var chained: seq<Tween>
    var playing: bool

    /** A tween from `from` to `to` lasting `durationMs`; nothing is chained yet and it is not playing. */
    constructor (from: Rgb, to: Rgb, durationMs: nat)
      ensures this.from == from && this.to == to && this.durationMs == durationMs
      ensures chained == [] && !playing
    {
      this.from, this.to, this.durationMs := from, to, durationMs;
      chained := [];
      playing := false;
    }

    /** The segment this tween animates. */
    function AsSegment(): Segment
    {
      Segment(from, to, durationMs)
    }

    /** Chains `next` after this tween, replacing whatever was chained before. */
    method Chain(next: Tween)
      modifies this
      ensures chained == [next] && playing == old(playing)
    {
      chained := [next];
    }

    /** Starts this tween. */
    method Start()
      modifies this
      ensures playing && chained == old(chained)
    {
      playing := true;
    }
  }

  /** The tweens are pairwise distinct objects. */
  predicate Distinct(tweens: seq<Tween>)
  {
    forall i, j :: 0 <= i < j < |tweens| ==> tweens[i] != tweens[j]
  }

  /** Every tween has its successor, and only its successor, chained after it. */
  predicate Wired(tweens: seq<Tween>)
    reads set i | 0 <= i < |tweens| :: tweens[i]
  {
    forall i :: 0 <= i < |tweens| ==> tweens[i].chained == [tweens[Successor(i, |tweens|)]]
  }

  /** One new tween per palette entry, animating that entry's segment. */
  method CreateTweens(palette: seq<Rgb>) returns (tweens: seq<Tween>)
    ensures |tweens| == |palette| && Distinct(tweens)
    ensures forall i :: 0 <= i < |tweens| ==>
      fresh(tweens[i]) && tweens[i].AsSegment() == Segments(palette)[i] &&
      tweens[i].chained == [] && !tweens[i].playing
  {
    var n := |palette|;
    tweens := [];
    var i := 0;
    while i < n
      invariant 0 <= i <= n && |tweens| == i && Distinct(tweens)
      invariant forall j :: 0 <= j < i ==>
        fresh(tweens[j]) && tweens[j].AsSegment() == Segments(palette)[j] &&
        tweens[j].chained == [] && !tweens[j].playing
    {
      var t := new Tween(palette[i], palette[(i + 1) % n], SegmentDurationMs);
      tweens := tweens + [t];
      i := i + 1;
    }
  }

  /** Chains every tween to the one after it, the last to the first. */
  method WireChain(tweens: seq<Tween>)
    requires Distinct(tweens)
    modifies set i | 0 <= i < |tweens| :: tweens[i]
    ensures Wired(tweens)
    ensures forall i :: 0 <= i < |tweens| ==> tweens[i].playing == old(tweens[i].playing)
  {
    var i := 0;
    while i < |tweens|
      invariant 0 <= i <= |tweens|
      invariant forall j :: 0 <= j < i ==> tweens[j].chained == [tweens[Successor(j, |tweens|)]]
      invariant forall j :: 0 <= j < |tweens| ==> tweens[j].playing == old(tweens[j].playing)
    {
      var next := (i + 1) % |tweens|;
      tweens[i].Chain(tweens[next]);
      i := i + 1;
    }
  }

  /**
   * Builds the animation from a palette: creates the tweens, chains them into a
   * cycle and starts the first one.  The source indexes the first tween without
   * a check, so the palette must not be empty.
   */
  method Animate(palette: seq<Rgb>) returns (tweens: seq<Tween>)
    requires |palette| > 0
    ensures |tweens| == |palette| && Distinct(tweens) && Wired(tweens)
    ensures forall i :: 0 <= i < |tweens| ==> fresh(tweens[i]) && tweens[i].AsSegment() == Segments(palette)[i]
    ensures forall i :: 0 <= i < |tweens| ==> (tweens[i].playing <==> i == 0)
  {
    tweens := CreateTweens(palette);
    WireChain(tweens);
    tweens[0].Start();
  }

  /** The tween reached from `t` by following the first chained tween `k` times. */
  ghost function Walk(t: Tween, k: nat): Tween
    reads *
    decreases k
  {
    if k == 0 || t.chained == [] then t else Walk(t.chained[0], k - 1)
  }

  /** On wired tweens, walking the object links follows the index successor. */
  lemma {:induction false} WalkFollowsIndices(tweens: seq<Tween>, i: nat, k: nat)
    requires Wired(tweens) && i < |tweens|
    ensures Walk(tweens[i], k) == tweens[Follow(i, k, |tweens|)]
    decreases k
  {
    if k > 0 {
      WalkFollowsIndices(tweens, Successor(i, |tweens|), k - 1);
    }
  }

  /**
   * On wired tweens, no tween is terminal: every tween has exactly one tween
   * chained after it, and walking N links returns to the start.
   */
  lemma WiredIsCycle(tweens: seq<Tween>, i: nat)
    requires Wired(tweens) && i < |tweens|
    ensures |tweens[i].chained| == 1
    ensures Walk(tweens[i], |tweens|) == tweens[i]
  {
    WalkFollowsIndices(tweens, i, |tweens|);
    FollowReturns(i, |tweens|);
  }

  /**
   * On the tweens the animation builds, each tween ends on the colour the tween
   * chained after it starts from.
   */
  lemma WiredContinuous(palette: seq<Rgb>, tweens: seq<Tween>, i: nat)
    requires Wired(tweens) && |tweens| == |palette| && i < |tweens|
    requires forall j :: 0 <= j < |tweens| ==> tweens[j].AsSegment() == Segments(palette)[j]
    ensures |tweens[i].chained| == 1 && tweens[i].to == tweens[i].chained[0].from
  {
    SegmentsContinuous(palette, i);
    assert tweens[Successor(i, |tweens|)].AsSegment() == Segments(palette)[Successor(i, |tweens|)];
  }
}
