/** The display server's loops: clipped drawing into the framebuffer, the replay of the background, and the repaint of windows. */
module Framebuffer {
  import opened Wrappers
  import opened Bytes
  import opened Arithmetic
  import opened Drawing
  import opened Compositor

  const PIXELS: nat := WIDTH * HEIGHT

  function Ix(x: nat, y: nat): (i: nat)
    requires OnScreen(x, y)
    ensures i < PIXELS
  {
    y * WIDTH + x
  }

  type Frame = s: seq<nat> | |s| == PIXELS witness seq(PIXELS, _ => 0)

  function At(f: Frame, x: nat, y: nat): nat
    requires OnScreen(x, y)
  {
    f[Ix(x, y)]
  }

  /** Inside the clip the commands have run; outside nothing has changed. */
  predicate DrewAt(font: Font, before: Frame, after: Frame, clip: Rect, ds: seq<Draw>, x: nat, y: nat)
    requires OnScreen(x, y)
  {
    At(after, x, y) == if Contains(clip, x, y) then Painted(font, ds, x, y, At(before, x, y)) else At(before, x, y)
  }

  ghost predicate Drew(font: Font, before: Frame, after: Frame, clip: Rect, ds: seq<Draw>) {
    forall x: nat, y: nat | OnScreen(x, y) :: DrewAt(font, before, after, clip, ds, x, y)
  }

  lemma DrewNothing(font: Font, f: Frame, clip: Rect)
    ensures Drew(font, f, f, clip, [])
  {
  }

  lemma DrewMore(font: Font, a: Frame, b: Frame, c: Frame, clip: Rect, ds: seq<Draw>, es: seq<Draw>)
    requires Drew(font, a, b, clip, ds) && Drew(font, b, c, clip, es)
    ensures Drew(font, a, c, clip, ds + es)
  {
    hide Painted, Contains;
    forall x: nat, y: nat | OnScreen(x, y)
      ensures DrewAt(font, a, c, clip, ds + es, x, y)
    {
      assert DrewAt(font, a, b, clip, ds, x, y) && DrewAt(font, b, c, clip, es, x, y);
      PaintedTwice(font, ds, es, x, y, At(a, x, y));
    }
  }

  lemma PaintedOne(font: Font, d: Draw, x: nat, y: nat, under: nat)
    ensures Painted(font, [d], x, y, under) == if Covers(font, d, x, y) then d.color else under
  {
    hide Covers;
    assert [d][..0] == [];
  }

  // ---- glyphs ---------------------------------------------------------------------------------------------------

  /** The pixels of one dot of a glyph. */
  predicate InDot(gx: nat, gy: nat, s: nat, row: nat, col: nat, x: nat, y: nat) {
    gx + col * s <= x < gx + col * s + s && gy + row * s <= y < gy + row * s + s
  }

  /** The part of a glyph drawn once the dots before (`row`, `col`) are done. */
  predicate GlyphUpTo(font: Font, ch: byte, gx: nat, gy: nat, s: nat, row: nat, col: nat, x: nat, y: nat)
    requires s > 0
  {
    && GlyphCovers(font, ch, gx, gy, s, x, y)
    && ((y - gy) / s < row || ((y - gy) / s == row && (x - gx) / s < col))
  }

  lemma DotIs(gx: nat, gy: nat, s: nat, row: nat, col: nat, x: nat, y: nat)
    requires s > 0 && row < 8 && col < 8
    ensures InDot(gx, gy, s, row, col, x, y)
      <==> gx <= x < gx + 8 * s && gy <= y < gy + 8 * s && (y - gy) / s == row && (x - gx) / s == col
  {
    Room(row, s);
    Room(col, s);
    if gx <= x && gy <= y {
      QuotientIff(x - gx, s, col);
      QuotientIff(y - gy, s, row);
    }
  }

  lemma Room(k: nat, s: nat)
    requires k < 8
    ensures k * s + s <= 8 * s && (k + 1) * s == k * s + s
  {
    assert (7 - k) * s >= 0;
  }

  /** One more dot, lit or not. */
  lemma GlyphGrows(font: Font, ch: byte, gx: nat, gy: nat, s: nat, row: nat, col: nat, x: nat, y: nat)
    requires s > 0 && row < 8 && col < 8
    ensures GlyphUpTo(font, ch, gx, gy, s, row, col + 1, x, y)
      <==> GlyphUpTo(font, ch, gx, gy, s, row, col, x, y) || (Lit(font, ch, row, col) && InDot(gx, gy, s, row, col, x, y))
  {
    hide Lit, InDot;
    DotIs(gx, gy, s, row, col, x, y);
  }

  lemma RowDone(font: Font, ch: byte, gx: nat, gy: nat, s: nat, row: nat, x: nat, y: nat)
    requires s > 0
    ensures GlyphUpTo(font, ch, gx, gy, s, row, 8, x, y) <==> GlyphUpTo(font, ch, gx, gy, s, row + 1, 0, x, y)
  {
    hide Lit;
    if gx <= x < gx + 8 * s { Eighth(x - gx, s); }
  }

  lemma Eighth(n: nat, s: nat)
    requires s > 0 && n < 8 * s
    ensures n / s < 8
  {
    assert n == (n / s) * s + n % s;
    assert n / s - 7 < 1 by { Times(s, n / s - 7); }
  }

  lemma GlyphDone(font: Font, ch: byte, gx: nat, gy: nat, s: nat, x: nat, y: nat)
    requires s > 0
    ensures GlyphUpTo(font, ch, gx, gy, s, 8, 0, x, y) <==> GlyphCovers(font, ch, gx, gy, s, x, y)
    ensures !GlyphUpTo(font, ch, gx, gy, s, 0, 0, x, y)
  {
    hide Lit;
    if gy <= y < gy + 8 * s { Eighth(y - gy, s); }
  }

  class Screen {
    const fb: array<nat>
    var clip: Rect

    constructor ()
      ensures fb.Length == PIXELS && fresh(fb) && clip == WHOLE && forall i | 0 <= i < PIXELS :: fb[i] == BLACK
    {
      fb := new nat[PIXELS](_ => BLACK);
      clip := WHOLE;
    }

    /** The clip lies on the screen. */
    ghost predicate Valid() reads this { fb.Length == PIXELS && clip.x + clip.w <= WIDTH && clip.y + clip.h <= HEIGHT }

    ghost function Now(): Frame
      requires Valid()
      reads this, fb
    {
      fb[..]
    }

    method SetClip(r: Rect)
      requires Valid()
      modifies this
      ensures Valid() && clip == Clamp(r)
    {
      clip := Clamp(r);
    }

    method FillRow(row: nat, x0: nat, x1: nat, color: nat)
      requires Valid() && row < HEIGHT && x1 <= WIDTH
      modifies fb
      ensures forall x: nat, y: nat | OnScreen(x, y) :: fb[Ix(x, y)] == if y == row && x0 <= x < x1 then color else old(fb[Ix(x, y)])
    {
      var col := x0;
      while col < x1
        invariant x0 <= col && (col <= x1 || col == x0)
        invariant forall x: nat, y: nat | OnScreen(x, y) :: fb[Ix(x, y)] == if y == row && x0 <= x < col then color else old(fb[Ix(x, y)])
      {
        fb[Ix(col, row)] := color;
        col := col + 1;
      }
    }

    method FillRect(font: Font, x: nat, y: nat, w: nat, h: nat, color: nat)
      requires Valid()
      modifies fb
      ensures Drew(font, old(Now()), Now(), clip, [Fill(x, y, w, h, color)])
    {
      var x0, y0 := Max(x, clip.x), Max(y, clip.y);
      var x1, y1 := Min(Min(x + w, clip.x + clip.w), WIDTH), Min(Min(y + h, clip.y + clip.h), HEIGHT);
      var row := y0;
      while row < y1
        invariant y0 <= row && (row <= y1 || row == y0)
        invariant forall px: nat, py: nat | OnScreen(px, py) ::
          fb[Ix(px, py)] == if y0 <= py < row && x0 <= px < x1 then color else old(fb[Ix(px, py)])
      {
        FillRow(row, x0, x1, color);
        row := row + 1;
      }
      forall px: nat, py: nat | OnScreen(px, py)
        ensures DrewAt(font, old(Now()), Now(), clip, [Fill(x, y, w, h, color)], px, py)
      {
        PaintedOne(font, Fill(x, y, w, h, color), px, py, old(fb[Ix(px, py)]));
      }
    }

    method Px(x: nat, y: nat, color: nat)
      requires Valid()
      modifies fb
      ensures forall px: nat, py: nat | OnScreen(px, py) ::
        fb[Ix(px, py)] == if px == x && py == y && Contains(clip, x, y) then color else old(fb[Ix(px, py)])
    {
      if Contains(clip, x, y) { fb[Ix(x, y)] := color; }
    }

    /** A dot of a glyph: a square of side `s`, pixel by pixel. */
    method PaintDot(gx: nat, gy: nat, s: nat, row: nat, col: nat, color: nat)
      requires Valid()
      modifies fb
      ensures forall x: nat, y: nat | OnScreen(x, y) ::
        fb[Ix(x, y)] == if Contains(clip, x, y) && InDot(gx, gy, s, row, col, x, y) then color else old(fb[Ix(x, y)])
    {
      var left, top := gx + col * s, gy + row * s;
      for sy := 0 to s
        invariant forall x: nat, y: nat | OnScreen(x, y) ::
          fb[Ix(x, y)] == if Contains(clip, x, y) && left <= x < left + s && top <= y < top + sy then color else old(fb[Ix(x, y)])
      {
        PaintDotRow(left, top + sy, s, color);
      }
    }

    method PaintDotRow(left: nat, y0: nat, s: nat, color: nat)
      requires Valid()
      modifies fb
      ensures forall x: nat, y: nat | OnScreen(x, y) ::
        fb[Ix(x, y)] == if Contains(clip, x, y) && left <= x < left + s && y == y0 then color else old(fb[Ix(x, y)])
    {
      for sx := 0 to s
        invariant forall x: nat, y: nat | OnScreen(x, y) ::
          fb[Ix(x, y)] == if Contains(clip, x, y) && left <= x < left + sx && y == y0 then color else old(fb[Ix(x, y)])
      {
        Px(left + sx, y0, color);
      }
    }

    method PaintGlyph(font: Font, ch: byte, gx: nat, gy: nat, s: nat, color: nat)
      requires Valid() && s > 0
      modifies fb
      ensures forall x: nat, y: nat | OnScreen(x, y) ::
        fb[Ix(x, y)] == if Contains(clip, x, y) && GlyphCovers(font, ch, gx, gy, s, x, y) then color else old(fb[Ix(x, y)])
    {
      hide GlyphUpTo, GlyphCovers, Contains, Lit;
      forall x: nat, y: nat
        ensures !GlyphUpTo(font, ch, gx, gy, s, 0, 0, x, y)
        ensures GlyphUpTo(font, ch, gx, gy, s, 8, 0, x, y) <==> GlyphCovers(font, ch, gx, gy, s, x, y)
      {
        GlyphDone(font, ch, gx, gy, s, x, y);
      }
      for row := 0 to 8
        invariant forall x: nat, y: nat | OnScreen(x, y) ::
          fb[Ix(x, y)] == if Contains(clip, x, y) && GlyphUpTo(font, ch, gx, gy, s, row, 0, x, y) then color else old(fb[Ix(x, y)])
      {
        PaintGlyphRow(font, ch, gx, gy, s, row, color, old(Now()));
      }
    }

    method PaintGlyphRow(font: Font, ch: byte, gx: nat, gy: nat, s: nat, row: nat, color: nat, ghost start: Frame)
      requires Valid() && s > 0 && row < 8
      requires forall x: nat, y: nat | OnScreen(x, y) ::
        fb[Ix(x, y)] == if Contains(clip, x, y) && GlyphUpTo(font, ch, gx, gy, s, row, 0, x, y) then color else start[Ix(x, y)]
      modifies fb
      ensures forall x: nat, y: nat | OnScreen(x, y) ::
        fb[Ix(x, y)] == if Contains(clip, x, y) && GlyphUpTo(font, ch, gx, gy, s, row + 1, 0, x, y) then color else start[Ix(x, y)]
    {
      hide GlyphUpTo, Contains, Lit, InDot, Ix;
      for col := 0 to 8
        invariant forall x: nat, y: nat | OnScreen(x, y) ::
          fb[Ix(x, y)] == if Contains(clip, x, y) && GlyphUpTo(font, ch, gx, gy, s, row, col, x, y) then color else start[Ix(x, y)]
      {
        forall x: nat, y: nat
          ensures GlyphUpTo(font, ch, gx, gy, s, row, col + 1, x, y)
            <==> GlyphUpTo(font, ch, gx, gy, s, row, col, x, y) || (Lit(font, ch, row, col) && InDot(gx, gy, s, row, col, x, y))
        {
          GlyphGrows(font, ch, gx, gy, s, row, col, x, y);
        }
        if Lit(font, ch, row, col) { PaintDot(gx, gy, s, row, col, color); }
      }
      forall x: nat, y: nat
        ensures GlyphUpTo(font, ch, gx, gy, s, row, 8, x, y) <==> GlyphUpTo(font, ch, gx, gy, s, row + 1, 0, x, y)
      {
        RowDone(font, ch, gx, gy, s, row, x, y);
      }
    }

    method PaintText(font: Font, x: nat, y: nat, scale: nat, color: nat, bytes: seq<byte>)
      requires Valid()
      modifies fb
      ensures Drew(font, old(Now()), Now(), clip, [Text(x, y, scale, color, bytes)])
    {
      hide GlyphCovers, Contains, Painted;
      var s, d := Scale(scale), Text(x, y, scale, color, bytes);
      for i := 0 to |bytes|
        invariant forall px: nat, py: nat | OnScreen(px, py) ::
          fb[Ix(px, py)] == if Contains(clip, px, py) && CoversUpTo(font, d, i, px, py) then color else old(fb[Ix(px, py)])
      {
        PaintGlyph(font, bytes[i], x + i * 8 * s, y, s, color);
        forall px: nat, py: nat
          ensures CoversUpTo(font, d, i + 1, px, py)
            <==> CoversUpTo(font, d, i, px, py) || GlyphCovers(font, bytes[i], x + i * 8 * s, y, s, px, py)
        {
          TextGrows(font, d, i, px, py);
        }
      }
      forall px: nat, py: nat | OnScreen(px, py)
        ensures DrewAt(font, old(Now()), Now(), clip, [d], px, py)
      {
        PaintedOne(font, d, px, py, old(fb[Ix(px, py)]));
        TextDone(font, d, px, py);
      }
    }

    method DrawOne(font: Font, d: Draw)
      requires Valid()
      modifies fb
      ensures Drew(font, old(Now()), Now(), clip, [d])
    {
      hide Drew;
      match d
      case Fill(x, y, w, h, color) => FillRect(font, x, y, w, h, color);
      case Text(x, y, scale, color, bytes) => PaintText(font, x, y, scale, color, bytes);
    }

    /** Replay the retained background into the clip. */
    method RootPaint(font: Font, root: seq<byte>)
      requires Valid()
      modifies fb
      ensures Drew(font, old(Now()), Now(), clip, Replay(root))
    {
      hide Drew, HeadLength, HeadDraw, Replay;
      var i: nat := 0;
      ghost var done: seq<Draw> := [];
      DrewNothing(font, Now(), clip);
      assert root[0..] == root && [] + Replay(root) == Replay(root);
      while i < |root| && HeadLength(root[i..]) > 0
        invariant i <= |root| && done + Replay(root[i..]) == Replay(root)
        invariant Drew(font, old(Now()), Now(), clip, done)
      {
        var d, n := HeadDraw(root[i..]), HeadLength(root[i..]);
        ghost var before := Now();
        DrawOne(font, d);
        DrewMore(font, old(Now()), before, Now(), clip, done, [d]);
        ReplayStep(root, i, done);
        done := done + [d];
        i := i + n;
      }
      HeadOfNothing(root[i..]);
      assert done + [] == done;
    }

    method PaintWindow(font: Font, w: Window)
      requires Valid()
      modifies fb
      ensures Drew(font, old(Now()), Now(), clip, WindowDraws(w))
    {
      hide Drew, Shade;
      ghost var ds := WindowDraws(w);
      ghost var f0 := Now();
      FillRect(font, w.rect.x, w.rect.y, w.rect.w, w.rect.h, w.bg);
      ghost var f1 := Now();
      FillRect(font, w.rect.x, w.rect.y, w.rect.w, TITLE_BAR, Shade(w.bg));
      DrewMore(font, f0, f1, Now(), clip, [ds[0]], [ds[1]]);
      ghost var f2 := Now();
      PaintText(font, w.rect.x + 6, w.rect.y + 7, 1, TITLE_COLOR, w.title);
      DrewMore(font, f0, f2, Now(), clip, [ds[0]] + [ds[1]], [ds[2]]);
      assert ds[..3] == [ds[0]] + [ds[1]] + [ds[2]];
      for i := 0 to |w.cmds|
        invariant Drew(font, f0, Now(), clip, ds[..3 + i])
      {
        ghost var f := Now();
        assert ds[3 + i] == Placed(w.rect, w.cmds[i]);
        DrawOne(font, Placed(w.rect, w.cmds[i]));
        DrewMore(font, f0, f, Now(), clip, ds[..3 + i], [ds[3 + i]]);
        assert ds[..3 + i] + [ds[3 + i]] == ds[..3 + (i + 1)];
      }
      assert ds[..3 + |w.cmds|] == ds;
    }
  }

  /** Some of the first `n` characters cover the pixel. */
  predicate CoversUpTo(font: Font, d: Draw, n: nat, x: nat, y: nat)
    requires d.Text? && n <= |d.bytes|
  {
    exists i | 0 <= i < n :: CharCovers(font, d, i, x, y)
  }

  lemma TextGrows(font: Font, d: Draw, i: nat, x: nat, y: nat)
    requires d.Text? && i < |d.bytes|
    ensures CoversUpTo(font, d, i + 1, x, y)
      <==> CoversUpTo(font, d, i, x, y) || GlyphCovers(font, d.bytes[i], d.x + i * 8 * Scale(d.scale), d.y, Scale(d.scale), x, y)
  {
    hide GlyphCovers;
    assert CharCovers(font, d, i, x, y) <==> GlyphCovers(font, d.bytes[i], d.x + i * 8 * Scale(d.scale), d.y, Scale(d.scale), x, y);
  }

  lemma TextDone(font: Font, d: Draw, x: nat, y: nat)
    requires d.Text?
    ensures CoversUpTo(font, d, |d.bytes|, x, y) <==> Covers(font, d, x, y)
  {
    hide CharCovers;
  }

  lemma ReplayStep(root: seq<byte>, i: nat, done: seq<Draw>)
    requires i <= |root| && HeadLength(root[i..]) > 0
    ensures var n := HeadLength(root[i..]);
      i + n <= |root| && done + Replay(root[i..]) == (done + [HeadDraw(root[i..])]) + Replay(root[i + n..])
  {
    hide HeadLength, HeadDraw;
    var b, n := root[i..], HeadLength(root[i..]);
    assert b[n..] == root[i + n..];
    assert done + ([HeadDraw(b)] + Replay(b[n..])) == (done + [HeadDraw(b)]) + Replay(b[n..]);
  }

  lemma HeadOfNothing(b: seq<byte>)
    ensures b == [] || HeadLength(b) == 0 ==> Replay(b) == []
  {
  }

  // ---- the window list and the repaint --------------------------------------------------------------------------

  function UsedList(ws: seq<Window>, n: nat): (r: seq<nat>)
    requires n <= |ws|
    ensures |r| <= n && forall k | 0 <= k < |r| :: r[k] < |ws|
  {
    if n == 0 then [] else if ws[n - 1].used then UsedList(ws, n - 1) + [n - 1] else UsedList(ws, n - 1)
  }

  function SortList(ws: seq<Window>, l: seq<nat>): (r: seq<nat>)
    requires forall k | 0 <= k < |l| :: l[k] < |ws|
    ensures |r| == |l| && forall k | 0 <= k < |r| :: r[k] < |ws|
  {
    if l == [] then [] else InsertByZ(ws, SortList(ws, l[..|l| - 1]), l[|l| - 1])
  }

  lemma {:induction false} OrderIsSort(ws: seq<Window>, n: nat)
    requires n <= |ws|
    ensures Order(ws, n) == SortList(ws, UsedList(ws, n))
    decreases n
  {
    hide InsertByZ;
    if n > 0 {
      OrderIsSort(ws, n - 1);
      if ws[n - 1].used { assert UsedList(ws, n)[..|UsedList(ws, n)| - 1] == UsedList(ws, n - 1); }
    }
  }

  /** The commands of the windows in order. */
  function FlatDraws(ws: seq<Window>, order: seq<nat>): seq<Draw>
    requires forall k | 0 <= k < |order| :: order[k] < |ws|
  {
    if order == [] then [] else FlatDraws(ws, order[..|order| - 1]) + WindowDraws(ws[order[|order| - 1]])
  }

  lemma {:induction false} FlatIsPaint(font: Font, ws: seq<Window>, order: seq<nat>, x: nat, y: nat, under: nat)
    requires forall k | 0 <= k < |order| :: order[k] < |ws|
    ensures Painted(font, FlatDraws(ws, order), x, y, under) == PaintWindows(font, ws, order, x, y, under)
    decreases |order|
  {
    hide WindowDraws;
    if order != [] {
      var n := |order| - 1;
      FlatIsPaint(font, ws, order[..n], x, y, under);
      PaintedTwice(font, FlatDraws(ws, order[..n]), WindowDraws(ws[order[n]]), x, y, under);
    }
  }

  /** Put the element at `i` of an otherwise sorted prefix in its place, by swaps to the left. */
  method SinkLeft(ws: seq<Window>, order: array<nat>, i: nat)
    requires i < order.Length && forall k | 0 <= k <= i :: order[k] < |ws|
    modifies order
    ensures order[..i + 1] == InsertByZ(ws, old(order[..i]), old(order[i]))
    ensures order[i + 1..] == old(order[i + 1..])
  {
    hide InsertByZ;
    var j: nat := i;
    ghost var front, e, rest := order[..i], order[i], order[i + 1..];
    while j > 0 && ws[order[j - 1]].z > ws[order[j]].z
      invariant j <= i && order[j] == e && order[i + 1..] == rest
      invariant forall k | 0 <= k <= i :: order[k] < |ws|
      invariant InsertByZ(ws, order[..j], e) + order[j + 1..i + 1] == InsertByZ(ws, front, e)
    {
      ghost var prefix, last, tail := order[..j], order[j - 1], order[j + 1..i + 1];
      order[j - 1], order[j] := order[j], order[j - 1];
      j := j - 1;
      assert order[..j] == prefix[..j];
      assert order[j + 1..i + 1] == [last] + tail;
      PassOne(ws, prefix, last, e, tail);
    }
    StopHere(ws, order[..j], e);
    assert order[..i + 1] == order[..j] + [e] + order[j + 1..i + 1];
  }

  /** Passing a higher window on the way left. */
  lemma PassOne(ws: seq<Window>, prefix: seq<nat>, last: nat, e: nat, tail: seq<nat>)
    requires prefix != [] && prefix[|prefix| - 1] == last && e < |ws| && (forall k | 0 <= k < |prefix| :: prefix[k] < |ws|) && ws[last].z > ws[e].z
    ensures InsertByZ(ws, prefix, e) + tail == InsertByZ(ws, prefix[..|prefix| - 1], e) + ([last] + tail)
  {
    var shorter := InsertByZ(ws, prefix[..|prefix| - 1], e);
    assert InsertByZ(ws, prefix, e) == shorter + [last];
    assert shorter + [last] + tail == shorter + ([last] + tail);
  }

  lemma StopHere(ws: seq<Window>, prefix: seq<nat>, e: nat)
    requires e < |ws| && (forall k | 0 <= k < |prefix| :: prefix[k] < |ws|) && (prefix == [] || ws[prefix[|prefix| - 1]].z <= ws[e].z)
    ensures InsertByZ(ws, prefix, e) == prefix + [e]
  {
  }

  method ListUsed(ws: seq<Window>) returns (order: array<nat>, n: nat)
    ensures order.Length == |ws| && n <= |ws| && fresh(order) && order[..n] == UsedList(ws, |ws|)
  {
    order := new nat[|ws|];
    n := 0;
    for i := 0 to |ws|
      invariant n <= i && order[..n] == UsedList(ws, i)
    {
      if ws[i].used {
        order[n] := i;
        n := n + 1;
      }
    }
  }

  lemma SortMore(ws: seq<Window>, l: seq<nat>, i: nat)
    requires i < |l| && forall k | 0 <= k < |l| :: l[k] < |ws|
    ensures SortList(ws, l[..i + 1]) == InsertByZ(ws, SortList(ws, l[..i]), l[i])
  {
    assert l[..i + 1][..i] == l[..i];
  }

  method SortWindows(ws: seq<Window>) returns (order: array<nat>, n: nat)
    ensures n <= order.Length && fresh(order) && order[..n] == Order(ws, |ws|)
  {
    hide InsertByZ, SortList, UsedList, Order;
    order, n := ListUsed(ws);
    ghost var used := UsedList(ws, |ws|);
    var i: nat := 0;
    assert order[0..n] == used[0..] && used[..0] == [];
    SortNone(ws);
    while i < n
      invariant i <= n == |used| <= order.Length && fresh(order)
      invariant order[..i] == SortList(ws, used[..i])
      invariant order[i..n] == used[i..]
    {
      SortMore(ws, used, i);
      assert order[i] == order[i..n][0] == used[i];
      assert order[i + 1..n] == order[i..n][1..];
      ghost var rest := order[i + 1..];
      assert rest[..n - i - 1] == used[i + 1..];
      forall k | 0 <= k <= i ensures order[k] < |ws| { assert k < i ==> order[k] == order[..i][k]; }
      SinkLeft(ws, order, i);
      assert order[i + 1..n] == order[i + 1..][..n - i - 1];
      i := i + 1;
    }
    assert used[..n] == used;
    OrderIsSort(ws, |ws|);
  }

  lemma SortNone(ws: seq<Window>)
    ensures SortList(ws, []) == []
  {
  }

  function AllBlack(x: nat, y: nat): nat { BLACK }

  class Server {
    const screen: Screen
    var root: seq<byte>
    var windows: seq<Window>
    var nextZ: nat
    var damage: Rect
    var rejected: nat
    /** The desk all this stands for. */
    ghost var desk: Desk

    /** A black screen, and nothing on it. */
    constructor ()
      ensures Valid() && fresh(screen) && fresh(screen.fb) && Starts(desk)
    {
      screen := new Screen();
      root := [];
      windows := seq(MAX_WINDOWS, _ => Window(false, 0, 0, EMPTY, 0, 0, [], []));
      nextZ := 1;
      damage := EMPTY;
      rejected := 0;
      desk := Desk([], windows, nextZ, damage, AllBlack, rejected);
    }

    /** The retained bytes are the desk's background, the fields are the desk's, and so is every pixel. */
    ghost predicate Valid() reads this, screen, screen.fb {
      && screen.Valid() && root == EncodeAll(desk.back) && AllFit(desk.back)
      && desk.windows == windows && desk.nextZ == nextZ && desk.damage == damage && desk.rejected == rejected
      && Agrees(screen.Now(), desk)
    }

    method Retained(c: Back)
      requires Valid() && BackFits(c)
      modifies this
      ensures Valid() && desk == Background(old(desk), c)
    {
      hide BackFits, Agrees;
      if c.Clear? {
        root := Encode(c);
        assert EncodeAll([c]) == Encode(c) + EncodeAll([c][1..]) && [c][1..] == [];
        assert Encode(c) + [] == Encode(c);
        damage := WHOLE;
      } else {
        if |root| + |Encode(c)| <= ROOT_CAPACITY {
          EncodeMore(desk.back, c);
          root := root + Encode(c);
        }
        damage := Union(damage, Clamp(BackRect(c)));
      }
      desk := Background(desk, c);
      StillAgrees(screen.Now(), old(desk), desk);
    }

    method FindWindow(owner: nat, id: nat) returns (r: Option<nat>)
      ensures r == Find(windows, owner, id)
    {
      for i := 0 to |windows|
        invariant Find(windows, owner, id) == (match Find(windows[i..], owner, id) case None => None case Some(k) => Some(i + k))
      {
        if windows[i].used && windows[i].owner == owner && windows[i].id == id { return Some(i); }
        assert windows[i..][1..] == windows[i + 1..];
      }
      return None;
    }

    method FindSlot() returns (r: Option<nat>)
      ensures r == FindFree(windows)
    {
      for i := 0 to |windows|
        invariant FindFree(windows) == (match FindFree(windows[i..]) case None => None case Some(k) => Some(i + k))
      {
        if !windows[i].used { return Some(i); }
        assert windows[i..][1..] == windows[i + 1..];
      }
      return None;
    }

    method CreateWindow(owner: nat, id: nat, rect: Rect, bg: nat, title: seq<byte>) returns (ok: bool)
      requires Valid()
      modifies this
      ensures Valid() && desk == Create(old(desk), owner, id, rect, bg, title)
      ensures ok <==> old(Find(windows, owner, id)) == None && old(FindFree(windows)).Some?
    {
      hide Clamp, Union, Agrees;
      desk := Create(desk, owner, id, rect, bg, title);
      StillAgrees(screen.Now(), old(desk), desk);
      var found := FindWindow(owner, id);
      if found.Some? { return false; }
      var slot := FindSlot();
      if slot == None { return false; }
      var w := Window(true, owner, id, Clamp(rect), bg, nextZ, CutTo(title, MAX_TITLE), []);
      windows := windows[slot.value := w];
      nextZ := nextZ + 1;
      damage := Union(damage, Clamp(w.rect));
      return true;
    }

    method ChangeWindow(owner: nat, id: nat, c: Change) returns (ok: bool)
      requires Valid()
      modifies this
      ensures Valid() && desk == With(old(desk), owner, id, c) && (ok <==> old(Find(windows, owner, id)).Some?)
    {
      hide Clamp, Union, Changed, Agrees;
      desk := With(desk, owner, id, c);
      StillAgrees(screen.Now(), old(desk), desk);
      var z := nextZ;
      if c.Raise? { nextZ := nextZ + 1; }
      var found := FindWindow(owner, id);
      if found == None {
        rejected := rejected + 1;
        return false;
      }
      var before := windows[found.value].rect;
      windows := windows[found.value := Changed(windows[found.value], c, z)];
      var after := windows[found.value].rect;
      damage := Union(damage, Clamp(before));
      damage := Union(damage, Clamp(after));
      return true;
    }

    /** Which window a tap belongs to, and where in it. */
    method HitTest(x: nat, y: nat) returns (r: Option<(nat, nat, nat, nat)>)
      ensures match Hit(windows, |windows|, x, y)
        case None => r == None
        case Some(i) =>
          && i < |windows| && windows[i].rect.x <= x && windows[i].rect.y <= y
          && r == Some((windows[i].owner, windows[i].id, x - windows[i].rect.x, y - windows[i].rect.y))
    {
      var best: Option<nat> := None;
      for i := 0 to |windows|
        invariant best == Hit(windows, i, x, y)
      {
        if windows[i].used && Contains(windows[i].rect, x, y) {
          if best == None || windows[i].z > windows[best.value].z { best := Some(i); }
        }
      }
      if best == None { return None; }
      var w := windows[best.value];
      return Some((w.owner, w.id, x - w.rect.x, y - w.rect.y));
    }

    /** Draw every window, bottom to top, inside the clip. */
    method PaintAll(font: Font)
      requires screen.Valid()
      modifies screen.fb
      ensures Drew(font, old(screen.Now()), screen.Now(), screen.clip, FlatDraws(windows, Order(windows, |windows|)))
    {
      hide Drew, Order, WindowDraws, EncodeAll;
      var order, n := SortWindows(windows);
      ghost var all := Order(windows, |windows|);
      DrewNothing(font, screen.Now(), screen.clip);
      for k := 0 to n
        invariant order[..n] == all && n <= order.Length
        invariant Drew(font, old(screen.Now()), screen.Now(), screen.clip, FlatDraws(windows, all[..k]))
      {
        assert order[k] == order[..n][k];
        ghost var before := screen.Now();
        screen.PaintWindow(font, windows[order[k]]);
        assert all[..k + 1][..k] == all[..k];
        DrewMore(font, old(screen.Now()), before, screen.Now(), screen.clip, FlatDraws(windows, all[..k]), WindowDraws(windows[all[k]]));
      }
      assert all[..n] == all;
    }

    /**
     Composite: every pixel of the framebuffer ends as the desk's redraw of its damaged box says. On a desk that has kept the
     invariant and been cleared that is, at every pixel, a repaint of everything over whatever was there.
     */
    method ComposeDamage(font: Font)
      requires Valid()
      modifies this, screen, screen.fb
      ensures Valid() && desk == Compose(font, old(desk))
      ensures Inv(font, old(desk)) && Cleared(old(desk).back) ==>
        forall x: nat, y: nat, under: nat | OnScreen(x, y) :: screen.Now()[Ix(x, y)] == FullPaint(font, desk, x, y, under)
    {
      hide Drew, EncodeAll, FlatDraws, Order, BackFits, FullPaint, Agrees, Inv, Contains, Clamp;
      ghost var before := desk;
      RepaintDamage(font);
      desk := Compose(font, desk);
      ComposedAgrees(font, before, desk, old(screen.Now()), screen.Now());
      if Inv(font, before) && Cleared(before.back) {
        forall x: nat, y: nat, under: nat | OnScreen(x, y)
          ensures screen.Now()[Ix(x, y)] == FullPaint(font, desk, x, y, under)
        {
          ComposeShows(font, before, x, y, under);
          AgreesAt(screen.Now(), desk, x, y);
        }
      }
    }

    /** The work of `compose`: repaint background and windows inside the damaged box. */
    method RepaintDamage(font: Font)
      requires Valid()
      modifies this`damage, screen, screen.fb
      ensures screen.Valid() && damage == Compose(font, old(desk)).damage
      ensures forall x: nat, y: nat | OnScreen(x, y) :: Repainted(font, old(desk), old(screen.Now()), screen.Now(), x, y)
    {
      hide Drew, EncodeAll, FlatDraws, Order, BackFits, FullPaint, Agrees;
      var box := Clamp(damage);
      forall x: nat, y: nat
        ensures OnScreen(x, y) ==> (Contains(box, x, y) <==> Contains(damage, x, y))
      {
        ClampExact(damage, x, y);
      }
      if box.w == 0 || box.h == 0 { return; }
      screen.SetClip(box);
      ghost var f0 := screen.Now();
      screen.RootPaint(font, root);
      ReplayRoundTrip(desk.back);
      ghost var f1 := screen.Now();
      PaintAll(font);
      DrewMore(font, f0, f1, screen.Now(), screen.clip, BackDraws(desk.back), FlatDraws(windows, Order(windows, |windows|)));
      ghost var f2 := screen.Now();
      forall x: nat, y: nat | OnScreen(x, y)
        ensures Repainted(font, old(desk), f0, f2, x, y)
      {
        DrewIsFull(font, old(desk), f0, f2, screen.clip, x, y);
        ClampExact(box, x, y);
      }
      screen.SetClip(WHOLE);
      damage := EMPTY;
    }
  }

  predicate AllFit(back: seq<Back>) { forall i | 0 <= i < |back| :: BackFits(back[i]) }

  /** Every pixel has the desk's colour. */
  ghost predicate Agrees(f: Frame, d: Desk) { forall x: nat, y: nat | OnScreen(x, y) :: f[Ix(x, y)] == d.fb(x, y) }

  lemma AgreesAt(f: Frame, d: Desk, x: nat, y: nat)
    requires Agrees(f, d) && OnScreen(x, y)
    ensures f[Ix(x, y)] == d.fb(x, y)
  {
  }

  lemma StillAgrees(f: Frame, d: Desk, e: Desk)
    requires Agrees(f, d) && d.fb == e.fb
    ensures Agrees(f, e)
  {
  }

  predicate Repainted(font: Font, d: Desk, f: Frame, g: Frame, x: nat, y: nat)
    requires OnScreen(x, y)
  {
    g[Ix(x, y)] == if Contains(d.damage, x, y) then FullPaint(font, d, x, y, f[Ix(x, y)]) else f[Ix(x, y)]
  }

  lemma ComposedAgrees(font: Font, d: Desk, e: Desk, f: Frame, g: Frame)
    requires Agrees(f, d) && e == Compose(font, d) && forall x: nat, y: nat | OnScreen(x, y) :: Repainted(font, d, f, g, x, y)
    ensures Agrees(g, e)
  {
    hide FullPaint, Contains, Compose;
    forall x: nat, y: nat | OnScreen(x, y)
      ensures g[Ix(x, y)] == e.fb(x, y)
    {
      assert Repainted(font, d, f, g, x, y);
      AgreesAt(f, d, x, y);
      ComposeExact(font, d, x, y);
    }
  }

  lemma DrewIsFull(font: Font, d: Desk, f0: Frame, f2: Frame, clip: Rect, x: nat, y: nat)
    requires OnScreen(x, y) && Drew(font, f0, f2, clip, BackDraws(d.back) + FlatDraws(d.windows, Order(d.windows, |d.windows|)))
    ensures At(f2, x, y) == if Contains(clip, x, y) then FullPaint(font, d, x, y, At(f0, x, y)) else At(f0, x, y)
  {
    hide Contains, Painted, Order, FlatDraws;
    var order := Order(d.windows, |d.windows|);
    assert DrewAt(font, f0, f2, clip, BackDraws(d.back) + FlatDraws(d.windows, order), x, y);
    PaintedTwice(font, BackDraws(d.back), FlatDraws(d.windows, order), x, y, At(f0, x, y));
    FlatIsPaint(font, d.windows, order, x, y, Painted(font, BackDraws(d.back), x, y, At(f0, x, y)));
  }
}
