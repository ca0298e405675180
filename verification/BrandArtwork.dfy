/** `FillSmallHighlights` of BrandArtwork.cs: a breadth-first search over a flat visited array and
    a flat queue that repaints small transparent components while later ones are still unexplored. */
module BrandArtwork {

  datatype Color = Color(a: int, r: int, g: int, b: int)

  class Bitmap {
    const width: nat
    const height: nat
    const pixels: array<Color>

    predicate Valid() {
      pixels.Length == width * height
    }

    constructor (width: nat, height: nat)
      ensures Valid() && fresh(pixels) && this.width == width && this.height == height
      ensures forall i :: 0 <= i < pixels.Length ==> pixels[i] == Color(0, 0, 0, 0)
    {
      this.width, this.height := width, height;
      pixels := new Color[width * height](_ => Color(0, 0, 0, 0));
    }
  }

  // ---------------------------------------------------------------- specification

  /** Four-neighbourhood of the pixels of an image `w` wide, by coordinates. */
  predicate Adjacent(w: nat, i: nat, j: nat)
    requires w > 0
  {
    || (i / w == j / w && (i % w == j % w + 1 || j % w == i % w + 1))
    || (i % w == j % w && (i / w == j / w + 1 || j / w == i / w + 1))
  }

  predicate Transparent(img: seq<Color>, i: nat) {
    i < |img| && img[i].a == 0
  }

  ghost predicate IsPath(img: seq<Color>, w: nat, p: seq<nat>)
    requires w > 0
  {
    && p != []
    && (forall k :: 0 <= k < |p| ==> Transparent(img, p[k]))
    && (forall k :: 0 <= k < |p| - 1 ==> Adjacent(w, p[k], p[k + 1]))
  }

  ghost predicate Connected(img: seq<Color>, w: nat, i: nat, j: nat)
    requires w > 0
  {
    exists p :: IsPath(img, w, p) && p[0] == i && p[|p| - 1] == j
  }

  /** The transparent pixels that can be reached from `i` through transparent pixels. */
  ghost function Component(img: seq<Color>, w: nat, i: nat): set<nat>
    requires w > 0
  {
    set j: nat | j < |img| && Connected(img, w, i, j)
  }

  const SMALL := 24

  /** A picture of `w` by `h` pixels laid over another one at an offset of `padding`. */
  datatype Source = Source(img: seq<Color>, w: nat, h: nat, padding: int)
  {
    predicate Valid() {
      |img| == w * h
    }

    predicate Covers(width: nat, i: nat)
      requires width > 0
    {
      padding <= i % width < padding + w && padding <= i / width < padding + h
    }

    function At(width: nat, i: nat): Color
      requires width > 0 && Valid() && Covers(width, i)
    {
      PixelIndex(w, h, i % width - padding, i / width - padding);
      img[(i / width - padding) * w + (i % width - padding)]
    }

    function Paint(width: nat, i: nat): Color
      requires width > 0 && Valid() && Covers(width, i)
    {
      var pixel := At(width, i);
      Color(255, pixel.r, pixel.g, pixel.b)
    }
  }

  /** What pixel `i` of the artwork becomes, given the artwork as it was before any repainting. */
  ghost function Filled(source: Source, img: seq<Color>, w: nat, i: nat): Color
    requires w > 0 && source.Valid() && i < |img|
  {
    if Transparent(img, i) && |Component(img, w, i)| <= SMALL && source.Covers(w, i) then source.Paint(w, i) else img[i]
  }

  // ---------------------------------------------------------------- coordinates

  lemma Multiples(k: int, w: nat)
    requires k >= 1
    ensures k * w >= w
  {
  }

  lemma QuotientUnique(w: nat, q: int, r: int, y: int, x: int)
    requires 0 <= r < w && 0 <= x < w && q * w + r == y * w + x
    ensures q == y && r == x
  {
    assert (q - y) * w == x - r;
    if q > y {
      Multiples(q - y, w);
    } else if q < y {
      assert (y - q) * w == r - x;
      Multiples(y - q, w);
    }
  }

  lemma PixelIndex(w: nat, h: nat, x: int, y: int)
    requires 0 <= x < w && 0 <= y < h
    ensures 0 <= y * w + x < w * h
    ensures (y * w + x) / w == y && (y * w + x) % w == x
  {
    assert h * w == (h - y) * w + y * w;
    Multiples(h - y, w);
    var i := y * w + x;
    assert i == (i / w) * w + i % w;
    QuotientUnique(w, i / w, i % w, y, x);
  }

  lemma Monotone(a: int, b: int, w: nat)
    requires a <= b
    ensures a * w <= b * w
  {
  }

  lemma Coordinates(w: nat, h: nat, i: nat)
    requires i < w * h
    ensures w > 0 && i % w < w && i / w < h && (i / w) * w + i % w == i
  {
    assert w > 0;
    if i / w >= h {
      Monotone(h, i / w, w);
      assert false;
    }
  }

  /** Two pixels are neighbours when one coordinate is the same and the other differs by one. */
  lemma NeighboursByCoordinates(w: nat, x: nat, y: nat, x': nat, y': nat)
    requires x < w && x' < w
    ensures Adjacent(w, y * w + x, y' * w + x')
        <==> (x == x' && (y == y' + 1 || y' == y + 1)) || (y == y' && (x == x' + 1 || x' == x + 1))
  {
    PixelIndex(w, y + 1, x, y);
    PixelIndex(w, y' + 1, x', y');
  }

  /** What a pixel of the artwork becomes, by its coordinates: a pixel of a component of at most 24
      transparent pixels gets the opaque colour of the source pixel it lies over, if there is one. */
  lemma FilledAt(source: Source, img: seq<Color>, w: nat, h: nat, x: nat, y: nat)
    requires x < w && y < h && |img| == w * h && source.Valid()
    ensures y * w + x < |img|
    ensures var i, u, v := y * w + x, x - source.padding, y - source.padding;
            && (img[i].a == 0 && |Component(img, w, i)| <= 24 && 0 <= u < source.w && 0 <= v < source.h ==>
                  && 0 <= v * source.w + u < |source.img|
                  && var pixel := source.img[v * source.w + u];
                     Filled(source, img, w, i) == Color(255, pixel.r, pixel.g, pixel.b))
            && (img[i].a != 0 || |Component(img, w, i)| > 24 || !(0 <= u < source.w && 0 <= v < source.h) ==>
                  Filled(source, img, w, i) == img[i])
  {
    PixelIndex(w, h, x, y);
    var u, v := x - source.padding, y - source.padding;
    if 0 <= u < source.w && 0 <= v < source.h {
      PixelIndex(source.w, source.h, u, v);
    }
    hide Component;
  }

  // ---------------------------------------------------------------- connectedness

  lemma Connects(img: seq<Color>, w: nat, p: seq<nat>)
    requires w > 0 && IsPath(img, w, p)
    ensures Connected(img, w, p[0], p[|p| - 1])
  {
  }

  lemma ConnectedStep(img: seq<Color>, w: nat, i: nat, j: nat, k: nat)
    requires w > 0 && Connected(img, w, i, j) && Adjacent(w, j, k) && Transparent(img, k)
    ensures Connected(img, w, i, k)
  {
    var p :| IsPath(img, w, p) && p[0] == i && p[|p| - 1] == j;
    Connects(img, w, p + [k]);
  }

  lemma ConnectedSymmetric(img: seq<Color>, w: nat, i: nat, j: nat)
    requires w > 0 && Connected(img, w, i, j)
    ensures Connected(img, w, j, i)
  {
    var p :| IsPath(img, w, p) && p[0] == i && p[|p| - 1] == j;
    var n := |p|;
    var back := seq(n, k requires 0 <= k < n => p[n - 1 - k]);
    forall k | 0 <= k < n - 1 ensures Adjacent(w, back[k], back[k + 1]) {
      assert Adjacent(w, p[n - 2 - k], p[n - 2 - k + 1]);
    }
    Connects(img, w, back);
  }

  lemma ConnectedTransitive(img: seq<Color>, w: nat, i: nat, j: nat, k: nat)
    requires w > 0 && Connected(img, w, i, j) && Connected(img, w, j, k)
    ensures Connected(img, w, i, k)
  {
    var p :| IsPath(img, w, p) && p[0] == i && p[|p| - 1] == j;
    var q :| IsPath(img, w, q) && q[0] == j && q[|q| - 1] == k;
    var r := p + q[1..];
    forall m | 0 <= m < |r| - 1 ensures Adjacent(w, r[m], r[m + 1]) {
      if m >= |p| - 1 {
        assert r[m] == q[m - |p| + 1] && r[m + 1] == q[m - |p| + 2];
      }
    }
    Connects(img, w, r);
  }

  /** All pixels of a component have the same component. */
  lemma SameComponent(img: seq<Color>, w: nat, i: nat, j: nat)
    requires w > 0 && j in Component(img, w, i)
    ensures Component(img, w, j) == Component(img, w, i)
  {
    ConnectedSymmetric(img, w, i, j);
    forall k: nat | k < |img| ensures Connected(img, w, i, k) <==> Connected(img, w, j, k) {
      if Connected(img, w, i, k) {
        ConnectedTransitive(img, w, j, i, k);
      }
      if Connected(img, w, j, k) {
        ConnectedTransitive(img, w, i, j, k);
      }
    }
  }

  /** A set of pixels no transparent neighbour leads out of contains every path that starts in it. */
  lemma {:induction false} PathStaysInside(img: seq<Color>, w: nat, closed: set<nat>, p: seq<nat>)
    requires w > 0 && IsPath(img, w, p) && p[0] in closed
    requires forall i, j :: i in closed && Transparent(img, j) && Adjacent(w, i, j) ==> j in closed
    ensures p[|p| - 1] in closed
    decreases |p|
  {
    if |p| > 1 {
      assert Adjacent(w, p[0], p[1]);
      var rest := p[1..];
      forall k | 0 <= k < |rest| - 1 ensures Adjacent(w, rest[k], rest[k + 1]) {
        assert Adjacent(w, p[k + 1], p[k + 1 + 1]);
      }
      PathStaysInside(img, w, closed, rest);
    }
  }

  // ---------------------------------------------------------------- counting

  ghost predicate Distinct(s: seq<nat>) {
    forall i, j :: 0 <= i < j < |s| ==> s[i] != s[j]
  }

  ghost function Elements(s: seq<nat>): set<nat> {
    set x | x in s
  }

  lemma {:induction false} DistinctSize(s: seq<nat>)
    requires Distinct(s)
    ensures |Elements(s)| == |s|
  {
    if s != [] {
      var rest := s[..|s| - 1];
      DistinctSize(rest);
      assert s == rest + [s[|s| - 1]];
      assert Elements(s) == Elements(rest) + {s[|s| - 1]};
    }
  }

  ghost function Below(n: nat): (r: set<nat>)
    ensures forall x: nat :: x in r <==> x < n
    ensures |r| == n
  {
    if n == 0 then {} else Below(n - 1) + {n - 1}
  }

  /** Distinct indices below `n` are at most `n`: the queue cannot overrun. */
  lemma QueueFits(s: seq<nat>, n: nat)
    requires Distinct(s) && forall x :: x in s ==> x < n
    ensures |s| <= n
  {
    DistinctSize(s);
    var all := Below(n);
    assert Elements(s) <= all;
    assert all == Elements(s) + (all - Elements(s));
  }

  // ---------------------------------------------------------------- the search

  /** The visited pixels are whole components. */
  ghost predicate WholeComponents(img: seq<Color>, w: nat, visited: seq<bool>)
    requires w > 0 && |visited| == |img|
  {
    && (forall i :: 0 <= i < |img| && visited[i] ==> Transparent(img, i))
    && (forall i, j :: 0 <= i < |img| && visited[i] && 0 <= j < |img| && Transparent(img, j) && Adjacent(w, i, j) ==>
        visited[j])
  }

  /** The queue holds pixels of the component of `index`, and they are what was visited since `seen`. */
  ghost predicate Frontier(img: seq<Color>, w: nat, seen: seq<bool>, visited: seq<bool>, q: seq<nat>, index: nat) {
    && w > 0 && |seen| == |visited| == |img|
    && q != [] && q[0] == index && Distinct(q)
    && (forall x :: x in q ==> x < |img| && !seen[x] && Transparent(img, x) && Connected(img, w, index, x))
    && (forall k :: 0 <= k < |img| ==> (visited[k] <==> seen[k] || k in q))
  }

  /** All transparent neighbours of the first `head` pixels of the queue are visited. */
  ghost predicate Expanded(img: seq<Color>, w: nat, visited: seq<bool>, q: seq<nat>, head: nat)
    requires w > 0 && |visited| == |img| && head <= |q|
  {
    forall p, j: nat :: 0 <= p < head && j < |img| && Transparent(img, j) && Adjacent(w, q[p], j) ==> visited[j]
  }

  lemma StartFrontier(img: seq<Color>, w: nat, seen: seq<bool>, index: nat)
    requires w > 0 && |seen| == |img| && index < |img| && !seen[index] && Transparent(img, index)
    ensures Frontier(img, w, seen, seen[index := true], [index], index)
  {
    Connects(img, w, [index]);
  }

  lemma Enqueue(img: seq<Color>, w: nat, seen: seq<bool>, visited: seq<bool>, q: seq<nat>, index: nat, head: nat,
                next: nat)
    requires Frontier(img, w, seen, visited, q, index) && head < |q| && Expanded(img, w, visited, q, head)
    requires next < |img| && !visited[next] && Transparent(img, next) && Adjacent(w, q[head], next)
    ensures Frontier(img, w, seen, visited[next := true], q + [next], index)
    ensures Expanded(img, w, visited[next := true], q + [next], head)
    ensures |q| < |img|
  {
    assert q[head] in q;
    ConnectedStep(img, w, index, q[head], next);
    QueueFits(q + [next], |img|);
  }

  /** When the queue is exhausted it is the component. */
  lemma Exhausted(img: seq<Color>, w: nat, seen: seq<bool>, visited: seq<bool>, q: seq<nat>, index: nat)
    requires Frontier(img, w, seen, visited, q, index) && Expanded(img, w, visited, q, |q|)
    requires WholeComponents(img, w, seen)
    ensures Elements(q) == Component(img, w, index) && |q| == |Component(img, w, index)|
    ensures WholeComponents(img, w, visited)
  {
    var closed := Elements(q);
    forall i: nat, j: nat | i in closed && Transparent(img, j) && Adjacent(w, i, j) ensures j in closed {
      var p :| 0 <= p < |q| && q[p] == i;
      assert visited[j];
    }
    forall j: nat | j < |img| && Connected(img, w, index, j) ensures j in closed {
      var p :| IsPath(img, w, p) && p[0] == index && p[|p| - 1] == j;
      PathStaysInside(img, w, closed, p);
    }
    assert closed == Component(img, w, index);
    DistinctSize(q);
    forall i, j | 0 <= i < |img| && visited[i] && 0 <= j < |img| && Transparent(img, j)
        && Adjacent(w, i, j) ensures visited[j] {
      if i in q {
        assert j in closed;
      }
    }
  }

  const DX := [-1, 1, 0, 0]
  const DY := [0, 0, -1, 1]

  predicate InDirection(w: nat, i: nat, j: nat, d: nat)
    requires w > 0 && d < 4
  {
    j % w == i % w + DX[d] && j / w == i / w + DY[d]
  }

  /** The four directions are the four-neighbourhood. */
  lemma FourDirections(w: nat, i: nat, j: nat)
    requires w > 0
    ensures Adjacent(w, i, j) <==> exists d: nat :: d < 4 && InDirection(w, i, j, d)
  {
    assert DX[0] == -1 && DX[1] == 1 && DX[2] == 0 && DX[3] == 0 && DY[0] == 0 && DY[1] == 0 && DY[2] == -1
           && DY[3] == 1;
    if Adjacent(w, i, j) {
      var d := if j % w == i % w - 1 then 0 else if j % w == i % w + 1 then 1 else if j / w == i / w - 1 then 2 else 3;
      assert InDirection(w, i, j, d);
    }
  }

  /** Off the edge there is no pixel in that direction. */
  lemma NoNeighbour(img: seq<Color>, w: nat, h: nat, i: nat, d: nat)
    requires w > 0 && d < 4 && |img| == w * h && i < |img|
    requires var x, y := i % w + DX[d], i / w + DY[d]; x < 0 || y < 0 || x >= w || y >= h
    ensures forall j: nat :: j < |img| ==> !InDirection(w, i, j, d)
  {
    forall j: nat | j < |img| ensures !InDirection(w, i, j, d) {
      Coordinates(w, h, j);
    }
  }

  /** There is one pixel in each direction. */
  lemma NeighbourIs(w: nat, h: nat, i: nat, d: nat, next: nat)
    requires w > 0 && d < 4 && next < w * h && InDirection(w, i, next, d)
    ensures forall j: nat :: j < w * h && InDirection(w, i, j, d) ==> j == next
  {
    Coordinates(w, h, next);
    forall j: nat | j < w * h && InDirection(w, i, j, d) ensures j == next {
      Coordinates(w, h, j);
    }
  }

  /** The first `n` directions from pixel `i` are dealt with. */
  ghost predicate Looked(img: seq<Color>, w: nat, visited: seq<bool>, i: nat, n: nat)
    requires w > 0 && |visited| == |img| && n <= 4
  {
    forall d: nat, j: nat :: d < n && j < |img| && InDirection(w, i, j, d) && Transparent(img, j) ==> visited[j]
  }

  lemma LookedFurther(img: seq<Color>, w: nat, h: nat, visited: seq<bool>, i: nat, d: nat, next: nat)
    requires w > 0 && |visited| == |img| == w * h && d < 4 && Looked(img, w, visited, i, d)
    requires next < |img| && InDirection(w, i, next, d) && (visited[next] || !Transparent(img, next))
    ensures Looked(img, w, visited, i, d + 1)
  {
    NeighbourIs(w, h, i, d, next);
  }

  lemma LookedEverywhere(img: seq<Color>, w: nat, visited: seq<bool>, q: seq<nat>, head: nat)
    requires w > 0 && |visited| == |img| && head < |q|
    requires Expanded(img, w, visited, q, head) && Looked(img, w, visited, q[head], 4)
    ensures Expanded(img, w, visited, q, head + 1)
  {
    forall j: nat | j < |img| && Transparent(img, j) && Adjacent(w, q[head], j) ensures visited[j] {
      FourDirections(w, q[head], j);
    }
  }

  lemma SelfConnected(img: seq<Color>, w: nat, index: nat)
    requires w > 0 && Transparent(img, index)
    ensures index in Component(img, w, index)
  {
    Connects(img, w, [index]);
  }

  /** A pixel not visited yet lies in a component none of whose pixels is. */
  lemma FreshComponent(img: seq<Color>, w: nat, seen: seq<bool>, index: nat)
    requires w > 0 && |seen| == |img| && index < |img| && !seen[index] && WholeComponents(img, w, seen)
    ensures forall k :: k in Component(img, w, index) ==> k < |img| && Transparent(img, k) && !seen[k]
  {
    forall k | k in Component(img, w, index) ensures k < |img| && Transparent(img, k) && !seen[k] {
      var p :| IsPath(img, w, p) && p[0] == index && p[|p| - 1] == k;
      if seen[k] {
        ConnectedSymmetric(img, w, index, k);
        var back :| IsPath(img, w, back) && back[0] == k && back[|back| - 1] == index;
        PathStaysInside(img, w, (set i: nat | i < |img| && seen[i]), back);
      }
    }
  }

  /** One direction from the pixel at the head of the queue. */
  method VisitDirection(output: Bitmap, visited: array<bool>, queue: array<nat>, head: nat, from: nat, direction: nat,
                        ghost img: seq<Color>, ghost seen: seq<bool>, ghost index: nat) returns (count: nat)
    requires output.Valid() && output.width > 0
             && |img| == visited.Length == queue.Length == output.width * output.height
    requires head < from <= queue.Length && direction < 4
    requires Frontier(img, output.width, seen, visited[..], queue[..from], index)
    requires Expanded(img, output.width, visited[..], queue[..from], head)
    requires Looked(img, output.width, visited[..], queue[head], direction)
    requires forall k :: 0 <= k < |img| && !seen[k] ==> output.pixels[k] == img[k]
    modifies visited, queue
    ensures from <= count <= queue.Length && queue[..from] == old(queue[..from])
    ensures Frontier(img, output.width, seen, visited[..], queue[..count], index)
    ensures Expanded(img, output.width, visited[..], queue[..count], head)
    ensures Looked(img, output.width, visited[..], queue[head], direction + 1)
  {
    var width, height := output.width, output.height;
    count := from;
    var cell := queue[head];
    ghost var v, q := visited[..], queue[..from];
    assert cell in q && cell < |img|;
    var nextX := cell % width + DX[direction];
    var nextY := cell / width + DY[direction];
    if nextX < 0 || nextY < 0 || nextX >= width || nextY >= height {
      NoNeighbour(img, width, height, cell, direction);
      return;
    }
    PixelIndex(width, height, nextX, nextY);
    var next: nat := nextY * width + nextX;
    if visited[next] || output.pixels[next].a != 0 {
      LookedFurther(img, width, height, v, cell, direction, next);
      return;
    }
    FourDirections(width, cell, next);
    Enqueue(img, width, seen, v, q, index, head, next);
    hide Frontier, Expanded, Adjacent;
    visited[next] := true;
    queue[count] := next;
    count := count + 1;
    assert visited[..] == v[next := true] && queue[..count] == q + [next];
    LookedFurther(img, width, height, v[next := true], cell, direction, next);
  }

  /** The neighbours of the pixel at the head of the queue join its end. */
  method VisitNeighbours(output: Bitmap, visited: array<bool>, queue: array<nat>, head: nat, from: nat,
                         ghost img: seq<Color>, ghost seen: seq<bool>, ghost index: nat) returns (count: nat)
    requires output.Valid() && output.width > 0
             && |img| == visited.Length == queue.Length == output.width * output.height
    requires head < from <= queue.Length
    requires Frontier(img, output.width, seen, visited[..], queue[..from], index)
    requires Expanded(img, output.width, visited[..], queue[..from], head)
    requires forall k :: 0 <= k < |img| && !seen[k] ==> output.pixels[k] == img[k]
    modifies visited, queue
    ensures from <= count <= queue.Length
    ensures Frontier(img, output.width, seen, visited[..], queue[..count], index)
    ensures Expanded(img, output.width, visited[..], queue[..count], head + 1)
  {
    count := from;
    ghost var first := queue[..from];
    for direction := 0 to 4
      invariant from <= count <= queue.Length && queue[..from] == first
      invariant Frontier(img, output.width, seen, visited[..], queue[..count], index)
      invariant Expanded(img, output.width, visited[..], queue[..count], head)
      invariant Looked(img, output.width, visited[..], queue[head], direction)
    {
      hide Frontier, Expanded, Looked;
      ghost var before := queue[..count];
      count := VisitDirection(output, visited, queue, head, count, direction, img, seen, index);
      assert queue[..from] == before[..from];
    }
    LookedEverywhere(img, output.width, visited[..], queue[..count], head);
  }

  /** Searches the component of `index`: it ends up in the first `count` places of the queue. */
  method Explore(output: Bitmap, visited: array<bool>, queue: array<nat>, index: nat,
                 ghost img: seq<Color>) returns (count: nat)
    requires output.Valid() && output.width > 0
             && |img| == visited.Length == queue.Length == output.width * output.height
    requires index < |img| && !visited[index] && Transparent(img, index)
    requires forall k :: 0 <= k < |img| && !visited[k] ==> output.pixels[k] == img[k]
    requires WholeComponents(img, output.width, visited[..])
    modifies visited, queue
    ensures count <= queue.Length && Distinct(queue[..count])
    ensures Elements(queue[..count]) == Component(img, output.width, index)
            && count == |Component(img, output.width, index)|
    ensures forall k :: 0 <= k < |img| ==> (visited[k] <==> old(visited[k]) || k in Component(img, output.width, index))
    ensures WholeComponents(img, output.width, visited[..])
  {
    ghost var seen, w := visited[..], output.width;
    StartFrontier(img, w, seen, index);
    count := 1;
    queue[0] := index;
    visited[index] := true;
    assert visited[..] == seen[index := true] && queue[..1] == [index];
    var head := 0;
    while head < count
      invariant head <= count <= queue.Length
      invariant Frontier(img, w, seen, visited[..], queue[..count], index)
      invariant Expanded(img, w, visited[..], queue[..count], head)
      decreases queue.Length - head
    {
      count := VisitNeighbours(output, visited, queue, head, count, img, seen, index);
      head := head + 1;
    }
    Exhausted(img, w, seen, visited[..], queue[..count], index);
    assert forall k :: k in queue[..count] <==> k in Elements(queue[..count]);
  }

  /** Repaints the first `count` pixels of the queue that lie under the source. */
  method Paint(source: Bitmap, output: Bitmap, padding: int, queue: array<nat>, count: nat)
    requires source.Valid() && output.Valid() && output.width > 0 && source.pixels != output.pixels
    requires count <= queue.Length && forall x :: x in queue[..count] ==> x < output.pixels.Length
    modifies output.pixels
    ensures var from := Source(source.pixels[..], source.width, source.height, padding);
            forall k :: 0 <= k < output.pixels.Length ==>
              output.pixels[k] == if k in queue[..count] && from.Covers(output.width, k)
                                  then from.Paint(output.width, k) else old(output.pixels[k])
  {
    ghost var from := Source(source.pixels[..], source.width, source.height, padding);
    for point := 0 to count
      invariant source.pixels[..] == from.img
      invariant forall k :: 0 <= k < output.pixels.Length ==>
        output.pixels[k] == if k in queue[..point] && from.Covers(output.width, k)
                            then from.Paint(output.width, k) else old(output.pixels[k])
    {
      var cell := queue[point];
      assert cell in queue[..count];
      assert queue[..point + 1] == queue[..point] + [cell];
      var x, y := cell % output.width, cell / output.width;
      if x < padding || y < padding || x >= padding + source.width || y >= padding + source.height {
        continue;
      }
      PixelIndex(source.width, source.height, x - padding, y - padding);
      var pixel := source.pixels[(y - padding) * source.width + (x - padding)];
      output.pixels[cell] := Color(255, pixel.r, pixel.g, pixel.b);
    }
  }

  /** The artwork half done: visited pixels have their final colour, the others the one they started with. */
  ghost predicate HalfFilled(source: Source, img: seq<Color>, w: nat, visited: seq<bool>, current: seq<Color>)
    requires w > 0 && source.Valid()
  {
    && |visited| == |img| == |current|
    && forall k: nat :: k < |img| ==> current[k] == if visited[k] then Filled(source, img, w, k) else img[k]
  }

  /** Finishing one component finishes its pixels: their component is the one just searched. */
  lemma ComponentFilled(source: Source, img: seq<Color>, w: nat, seen: seq<bool>, visited: seq<bool>,
                        before: seq<Color>, after: seq<Color>, index: nat)
    requires w > 0 && source.Valid() && HalfFilled(source, img, w, seen, before)
    requires |visited| == |after| == |img|
    requires forall k :: 0 <= k < |img| ==> (visited[k] <==> seen[k] || k in Component(img, w, index))
    requires forall k :: k in Component(img, w, index) ==> Transparent(img, k) && !seen[k]
    requires var small := |Component(img, w, index)| <= SMALL;
             forall k: nat :: k < |img| ==>
               after[k] == if small && k in Component(img, w, index) && source.Covers(w, k) then source.Paint(w, k)
                   else before[k]
    ensures HalfFilled(source, img, w, visited, after)
  {
    forall k: nat | k < |img| ensures after[k] == if visited[k] then Filled(source, img, w, k) else img[k] {
      if k in Component(img, w, index) {
        SameComponent(img, w, index, k);
      }
    }
  }

  /** Searches one component and repaints it when it is small. */
  method FillComponent(source: Bitmap, output: Bitmap, padding: int, visited: array<bool>, queue: array<nat>,
                       index: nat,
                       ghost from: Source, ghost img: seq<Color>)
    requires source.Valid() && output.Valid() && source.pixels != output.pixels && output.width > 0
    requires |img| == visited.Length == queue.Length == output.width * output.height && index < |img|
    requires from == Source(source.pixels[..], source.width, source.height, padding)
    requires !visited[index] && Transparent(img, index)
    requires WholeComponents(img, output.width, visited[..])
    requires HalfFilled(from, img, output.width, visited[..], output.pixels[..])
    modifies output.pixels, visited, queue
    ensures visited[index] && forall k :: 0 <= k < |img| && old(visited[k]) ==> visited[k]
    ensures WholeComponents(img, output.width, visited[..])
    ensures HalfFilled(from, img, output.width, visited[..], output.pixels[..])
  {
    hide Component, Filled, Transparent, WholeComponents, IsPath, Connected;
    ghost var w, seen, before := output.width, visited[..], output.pixels[..];
    FreshComponent(img, w, seen, index);
    SelfConnected(img, w, index);
    assert forall k :: 0 <= k < |img| && !visited[k] ==> output.pixels[k] == before[k] == img[k];
    var count := Explore(output, visited, queue, index, img);
    assert forall k :: k in queue[..count] <==> k in Elements(queue[..count]);
    if count <= SMALL {
      Paint(source, output, padding, queue, count);
    }
    ComponentFilled(from, img, w, seen, visited[..], before, output.pixels[..], index);
  }

  /** The small highlights of the initial artwork are painted, nothing else changes. */
  method FillSmallHighlights(source: Bitmap, output: Bitmap, padding: int)
    requires source.Valid() && output.Valid() && source.pixels != output.pixels
    modifies output.pixels
    ensures output.width > 0 ==>
      var from := Source(source.pixels[..], source.width, source.height, padding);
      forall i: nat :: i < output.pixels.Length ==>
        output.pixels[i] == Filled(from, old(output.pixels[..]), output.width, i)
  {
    ghost var img, from := output.pixels[..], Source(source.pixels[..], source.width, source.height, padding);
    var visited := new bool[output.width * output.height](_ => false);
    var queue := new nat[output.width * output.height];
    if output.width == 0 {
      return;
    }
    for index := 0 to visited.Length
      invariant source.pixels[..] == from.img
      invariant WholeComponents(img, output.width, visited[..])
      invariant forall k: nat :: k < index && Transparent(img, k) ==> visited[k]
      invariant HalfFilled(from, img, output.width, visited[..], output.pixels[..])
    {
      hide Component, Filled;
      if visited[index] || output.pixels[index].a != 0 {
        continue;
      }
      FillComponent(source, output, padding, visited, queue, index, from, img);
    }
    forall i: nat | i < output.pixels.Length ensures output.pixels[i] == Filled(from, img, output.width, i) {
      assert output.pixels[..][i] == output.pixels[i];
    }
  }

  /** The whole artwork after repainting. */
  ghost function Repainted(source: Source, img: seq<Color>, w: nat): (r: seq<Color>)
    requires w > 0 && source.Valid()
    ensures |r| == |img|
  {
    seq(|img|, i requires 0 <= i < |img| => Filled(source, img, w, i))
  }

  lemma RepaintingShrinks(source: Source, img: seq<Color>, w: nat, p: seq<nat>)
    requires w > 0 && source.Valid() && IsPath(Repainted(source, img, w), w, p)
    ensures IsPath(img, w, p)
  {
    forall k | 0 <= k < |p| ensures Transparent(img, p[k]) {
      assert Transparent(Repainted(source, img, w), p[k]);
    }
  }

  lemma LargeComponentStays(source: Source, img: seq<Color>, w: nat, i: nat)
    requires w > 0 && source.Valid() && Transparent(img, i) && |Component(img, w, i)| > SMALL
    ensures Component(Repainted(source, img, w), w, i) == Component(img, w, i)
  {
    var later := Repainted(source, img, w);
    forall j: nat | j < |img| ensures Connected(later, w, i, j) <==> Connected(img, w, i, j) {
      if Connected(later, w, i, j) {
        var p :| IsPath(later, w, p) && p[0] == i && p[|p| - 1] == j;
        RepaintingShrinks(source, img, w, p);
      }
      if Connected(img, w, i, j) {
        var p :| IsPath(img, w, p) && p[0] == i && p[|p| - 1] == j;
        forall k | 0 <= k < |p| ensures Transparent(later, p[k]) {
          PathPrefix(img, w, p, k);
          SameComponent(img, w, i, p[k]);
        }
        Connects(later, w, p);
      }
    }
  }

  lemma PathPrefix(img: seq<Color>, w: nat, p: seq<nat>, k: nat)
    requires w > 0 && IsPath(img, w, p) && k < |p|
    ensures p[k] in Component(img, w, p[0])
  {
    var q := p[..k + 1];
    forall m | 0 <= m < |q| - 1 ensures Adjacent(w, q[m], q[m + 1]) {
      assert Adjacent(w, p[m], p[m + 1]);
    }
    assert Transparent(img, p[k]);
    Connects(img, w, q);
  }

  /** Repainting a second time changes nothing, although it meets smaller components than the first time. */
  lemma RepaintingIsIdempotent(source: Source, img: seq<Color>, w: nat)
    requires w > 0 && source.Valid()
    ensures Repainted(source, Repainted(source, img, w), w) == Repainted(source, img, w)
  {
    var later := Repainted(source, img, w);
    forall i: nat | i < |img| ensures Filled(source, later, w, i) == later[i] {
      if Transparent(later, i) && |Component(img, w, i)| > SMALL {
        LargeComponentStays(source, img, w, i);
      }
    }
  }
}
