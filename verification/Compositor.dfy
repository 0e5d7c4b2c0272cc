/** Windows over a retained background, one box of damage, and what the framebuffer shows after redrawing only that box. */
module Compositor {
  import opened Wrappers
  import opened Bytes
  import opened Arithmetic
  import opened Drawing

  const MAX_WINDOWS: nat := 8
  const MAX_CMDS: nat := 24
  const MAX_TEXT: nat := 40
  const MAX_TITLE: nat := 24
  const TITLE_BAR: nat := 22
  const TITLE_COLOR: nat := 0xffe6edf3
  const BLACK: nat := 0xff000000

  datatype Window = Window(used: bool, owner: nat, id: nat, rect: Rect, bg: nat, z: nat, title: seq<byte>, cmds: seq<Draw>)

  function Channel(c: nat, unit: nat): nat
    requires unit > 0
  {
    var v := c / unit % 256;
    (v + (255 - v) / 3) * unit
  }

  /** A title bar's colour: each channel a third of the way to white. */
  function Shade(c: nat): nat { BLACK + Channel(c, 1) + Channel(c, 256) + Channel(c, 65536) }

  /** A window's own command, moved to where the window is, below its title bar. */
  function Placed(r: Rect, c: Draw): Draw {
    match c
    case Fill(x, y, w, h, color) => Fill(r.x + x, r.y + TITLE_BAR + y, w, h, color)
    case Text(x, y, scale, color, bytes) => Text(r.x + x, r.y + TITLE_BAR + y, scale, color, bytes)
  }

  function PlacedAll(r: Rect, cs: seq<Draw>): (ds: seq<Draw>)
    ensures |ds| == |cs| && forall i | 0 <= i < |cs| :: ds[i] == Placed(r, cs[i])
  {
    if cs == [] then [] else PlacedAll(r, cs[..|cs| - 1]) + [Placed(r, cs[|cs| - 1])]
  }

  /** A colour's channel, by the weight of its lowest bit. */
  function ChannelOf(c: nat, unit: nat): nat
    requires unit > 0
  {
    c / unit % 256
  }

  /** Shading takes each channel a third of the way from where it is to full, and makes the colour opaque. */
  lemma ShadeIs(c: nat)
    ensures ChannelOf(Shade(c), 1) == ChannelOf(c, 1) + (255 - ChannelOf(c, 1)) / 3
    ensures ChannelOf(Shade(c), 256) == ChannelOf(c, 256) + (255 - ChannelOf(c, 256)) / 3
    ensures ChannelOf(Shade(c), 65536) == ChannelOf(c, 65536) + (255 - ChannelOf(c, 65536)) / 3
    ensures Shade(c) / 0x100_0000 == 255
  {
    var b, g, r := ChannelOf(c, 1), ChannelOf(c, 256), ChannelOf(c, 65536);
    var b1, g1, r1 := b + (255 - b) / 3, g + (255 - g) / 3, r + (255 - r) / 3;
    assert Shade(c) == BLACK + b1 + 256 * g1 + 65536 * r1;
    Channels(b1, g1, r1);
  }

  lemma Channels(b: nat, g: nat, r: nat)
    requires b < 256 && g < 256 && r < 256
    ensures var c := BLACK + b + 256 * g + 65536 * r;
      c % 256 == b && c / 256 % 256 == g && c / 65536 % 256 == r && c / 0x100_0000 == 255
  {
    var c := BLACK + b + 256 * g + 65536 * r;
    Quotient(c, 256, 0xff_0000 + g + 256 * r, b);
    Quotient(0xff_0000 + g + 256 * r, 256, 0xff00 + r, g);
    Quotient(c, 65536, 0xff00 + r, b + 256 * g);
    Quotient(0xff00 + r, 256, 0xff, r);
    Quotient(c, 0x100_0000, 0xff, b + 256 * g + 65536 * r);
  }

  /** A window's command draws what it draws, moved by the window's corner and 22 pixels down. */
  lemma PlacedIs(font: Font, r: Rect, c: Draw, x: nat, y: nat)
    ensures Covers(font, Placed(r, c), r.x + x, r.y + 22 + y) <==> Covers(font, c, x, y)
    ensures x < r.x || y < r.y + 22 ==> !Covers(font, Placed(r, c), x, y)
    ensures Placed(r, c).color == c.color
  {
    if c.Text? {
      hide CharCovers;
      var p, px, py := Placed(r, c), r.x + x, r.y + 22 + y;
      forall i | 0 <= i < |c.bytes| ensures CharCovers(font, p, i, px, py) <==> CharCovers(font, c, i, x, y) {
        PlacedChar(font, r, c, i, x, y);
      }
      SameText(font, p, px, py, c, x, y);
      forall i | 0 <= i < |c.bytes| ensures x < r.x || y < r.y + 22 ==> !CharCovers(font, p, i, x, y) {
        PlacedChar(font, r, c, i, x, y);
      }
    }
  }

  lemma SameText(font: Font, p: Draw, px: nat, py: nat, c: Draw, x: nat, y: nat)
    requires p.Text? && c.Text? && |p.bytes| == |c.bytes|
    requires forall i | 0 <= i < |c.bytes| :: CharCovers(font, p, i, px, py) <==> CharCovers(font, c, i, x, y)
    ensures Covers(font, p, px, py) <==> Covers(font, c, x, y)
  {
    hide CharCovers;
    if Covers(font, p, px, py) {
      var i :| 0 <= i < |p.bytes| && CharCovers(font, p, i, px, py);
      assert CharCovers(font, c, i, x, y);
    }
    if Covers(font, c, x, y) {
      var i :| 0 <= i < |c.bytes| && CharCovers(font, c, i, x, y);
      assert CharCovers(font, p, i, px, py);
    }
  }

  lemma PlacedChar(font: Font, r: Rect, c: Draw, i: nat, x: nat, y: nat)
    requires c.Text? && i < |c.bytes|
    ensures var p := Placed(r, c);
      && (CharCovers(font, p, i, r.x + x, r.y + 22 + y) <==> CharCovers(font, c, i, x, y))
      && (x < r.x || y < r.y + 22 ==> !CharCovers(font, p, i, x, y))
  {
    hide GlyphCovers, Scale;
    var at := i * 8 * Scale(c.scale);
    assert at >= 0;
    MovedGlyph(font, c.bytes[i], c.x + at, c.y, Scale(c.scale), r.x, r.y + 22, x, y);
    assert r.x + (c.x + at) == (r.x + c.x) + at && r.y + 22 + c.y == r.y + TITLE_BAR + c.y;
  }

  lemma MovedGlyph(font: Font, ch: byte, gx: nat, gy: nat, s: nat, dx: nat, dy: nat, x: nat, y: nat)
    requires s > 0
    ensures GlyphCovers(font, ch, dx + gx, dy + gy, s, dx + x, dy + y) <==> GlyphCovers(font, ch, gx, gy, s, x, y)
    ensures x < dx || y < dy ==> !GlyphCovers(font, ch, dx + gx, dy + gy, s, x, y)
  {
    hide Lit;
    if gx <= x && gy <= y { assert dx + x - (dx + gx) == x - gx && dy + y - (dy + gy) == y - gy; }
  }

  /** Everything painting a window draws: its area, its title bar, its title, its commands. */
  function WindowDraws(w: Window): (ds: seq<Draw>)
    ensures |ds| > 0 && ds[0] == Fill(w.rect.x, w.rect.y, w.rect.w, w.rect.h, w.bg)
  {
    [Fill(w.rect.x, w.rect.y, w.rect.w, w.rect.h, w.bg),
     Fill(w.rect.x, w.rect.y, w.rect.w, TITLE_BAR, Shade(w.bg)),
     Text(w.rect.x + 6, w.rect.y + 7, 1, TITLE_COLOR, w.title)] + PlacedAll(w.rect, w.cmds)
  }

  predicate DrawsAt(font: Font, w: Window, x: nat, y: nat) { w.used && Touches(font, WindowDraws(w), x, y) }

  /** `back` is the background that is retained, `fb` the colour at each pixel. */
  datatype Desk = Desk(
    back: seq<Back>, windows: seq<Window>, nextZ: nat, damage: Rect, fb: (nat, nat) -> nat, rejected: nat)

  // ---- what painting everything shows -------------------------------------------------------------------------

  /** The sort `paint` makes: used windows by height, moved left past every higher one. */
  function InsertByZ(ws: seq<Window>, order: seq<nat>, i: nat): (r: seq<nat>)
    requires i < |ws| && forall k | 0 <= k < |order| :: order[k] < |ws|
    ensures |r| == |order| + 1 && forall k | 0 <= k < |r| :: r[k] < |ws|
  {
    if order == [] || ws[order[|order| - 1]].z <= ws[i].z then order + [i]
    else InsertByZ(ws, order[..|order| - 1], i) + [order[|order| - 1]]
  }

  function Order(ws: seq<Window>, n: nat): (r: seq<nat>)
    requires n <= |ws|
    ensures forall k | 0 <= k < |r| :: r[k] < |ws|
  {
    if n == 0 then []
    else if ws[n - 1].used then InsertByZ(ws, Order(ws, n - 1), n - 1)
    else Order(ws, n - 1)
  }

  predicate Sorted(ws: seq<Window>, order: seq<nat>) {
    && (forall k | 0 <= k < |order| :: order[k] < |ws|)
    && (forall a, b | 0 <= a < b < |order| :: ws[order[a]].z <= ws[order[b]].z)
  }

  lemma {:induction false} InsertSorts(ws: seq<Window>, order: seq<nat>, i: nat)
    requires i < |ws| && Sorted(ws, order)
    ensures Sorted(ws, InsertByZ(ws, order, i))
    ensures forall k :: k in InsertByZ(ws, order, i) <==> k == i || k in order
    decreases |order|
  {
    if order != [] && ws[order[|order| - 1]].z > ws[i].z {
      var n := |order| - 1;
      var front, last := order[..n], order[n];
      assert order == front + [last];
      InsertSorts(ws, front, i);
      var r := InsertByZ(ws, front, i);
      forall a | 0 <= a < |r| ensures ws[r[a]].z <= ws[last].z {
        assert r[a] in r;
        assert r[a] == i || r[a] in front;
      }
    }
  }

  lemma {:induction false} OrderMember(ws: seq<Window>, n: nat, k: nat)
    requires n <= |ws|
    ensures k in Order(ws, n) <==> k < n && ws[k].used
    decreases n
  {
    hide InsertByZ, Sorted;
    if n > 0 {
      OrderMember(ws, n - 1, k);
      if ws[n - 1].used {
        OrderSorted(ws, n - 1);
        InsertSorts(ws, Order(ws, n - 1), n - 1);
      }
    }
  }

  lemma {:induction false} OrderSorted(ws: seq<Window>, n: nat)
    requires n <= |ws|
    ensures Sorted(ws, Order(ws, n))
    decreases n
  {
    hide InsertByZ;
    if n > 0 {
      OrderSorted(ws, n - 1);
      hide Sorted;
      if ws[n - 1].used { InsertSorts(ws, Order(ws, n - 1), n - 1); }
    }
  }

  /** Every used window, lowest first. */
  lemma OrderSorts(ws: seq<Window>, n: nat)
    requires n <= |ws|
    ensures Sorted(ws, Order(ws, n))
    ensures forall k | k in Order(ws, n) :: k < n && ws[k].used
    ensures forall k | 0 <= k < n && ws[k].used :: k in Order(ws, n)
  {
    hide Order, Sorted;
    OrderSorted(ws, n);
    forall k | k in Order(ws, n) ensures k < n && ws[k].used { OrderMember(ws, n, k); }
    forall k | 0 <= k < n && ws[k].used ensures k in Order(ws, n) { OrderMember(ws, n, k); }
  }

  function PaintWindows(font: Font, ws: seq<Window>, order: seq<nat>, x: nat, y: nat, under: nat): nat
    requires forall k | 0 <= k < |order| :: order[k] < |ws|
    decreases |order|
  {
    if order == [] then under
    else
      var n := |order| - 1;
      Painted(font, WindowDraws(ws[order[n]]), x, y, PaintWindows(font, ws, order[..n], x, y, under))
  }

  /** The colour a repaint of everything leaves at a pixel that had colour `under`. */
  function FullPaint(font: Font, d: Desk, x: nat, y: nat, under: nat): nat {
    PaintWindows(font, d.windows, Order(d.windows, |d.windows|), x, y, Painted(font, BackDraws(d.back), x, y, under))
  }

  // ---- what ought to be seen ----------------------------------------------------------------------------------

  /** The highest window that draws at a pixel. */
  function Top(font: Font, ws: seq<Window>, n: nat, x: nat, y: nat): (r: Option<nat>)
    requires n <= |ws|
    ensures r.Some? ==> r.value < n && DrawsAt(font, ws[r.value], x, y)
    ensures forall i | 0 <= i < n && DrawsAt(font, ws[i], x, y) :: r.Some? && ws[i].z <= ws[r.value].z
  {
    if n == 0 then None
    else
      var t := Top(font, ws, n - 1, x, y);
      if DrawsAt(font, ws[n - 1], x, y) && (t == None || ws[n - 1].z > ws[t.value].z) then Some(n - 1) else t
  }

  /** What ought to be seen: the highest window that draws there, or else the background. */
  function Shown(font: Font, d: Desk, x: nat, y: nat): nat {
    match Top(font, d.windows, |d.windows|, x, y)
    case Some(i) => Painted(font, WindowDraws(d.windows[i]), x, y, 0)
    case None => Painted(font, BackDraws(d.back), x, y, BLACK)
  }

  ghost predicate Heights(ws: seq<Window>) {
    forall i, j | 0 <= i < j < |ws| && ws[i].used && ws[j].used :: ws[i].z != ws[j].z
  }

  predicate Cleared(back: seq<Back>) { back != [] && back[0].Clear? }

  /** A background that starts with a clear leaves no trace of what was there. */
  lemma ClearedCovers(font: Font, back: seq<Back>, x: nat, y: nat)
    requires Cleared(back) && OnScreen(x, y)
    ensures Touches(font, BackDraws(back), x, y)
  {
    assert Covers(font, BackDraws(back)[0], x, y);
  }

  /** Window `i` is the highest of `order` that draws at a pixel, and gives it colour `c`. */
  ghost predicate IsLast(font: Font, ws: seq<Window>, order: seq<nat>, i: nat, x: nat, y: nat, c: nat)
    requires i in order && forall k | 0 <= k < |order| :: order[k] < |ws|
  {
    && DrawsAt(font, ws[i], x, y) && c == Painted(font, WindowDraws(ws[i]), x, y, 0)
    && forall j | j in order && DrawsAt(font, ws[j], x, y) :: ws[j].z <= ws[i].z
  }

  /** Painting in order leaves the last window that draws at a pixel. */
  lemma {:induction false} PaintedLast(font: Font, ws: seq<Window>, order: seq<nat>, x: nat, y: nat, under: nat)
    requires Sorted(ws, order) && forall k | 0 <= k < |order| :: ws[order[k]].used
    ensures
      || (PaintWindows(font, ws, order, x, y, under) == under && forall i | i in order :: !DrawsAt(font, ws[i], x, y))
      || exists i | i in order :: IsLast(font, ws, order, i, x, y, PaintWindows(font, ws, order, x, y, under))
    decreases |order|
  {
    hide Touches, Painted, WindowDraws;
    if order != [] {
      var n := |order| - 1;
      var front, last := order[..n], order[n];
      assert order == front + [last];
      PaintedLast(font, ws, front, x, y, under);
      var below := PaintWindows(font, ws, front, x, y, under);
      PaintedUnder(font, WindowDraws(ws[last]), x, y, below, 0);
      if DrawsAt(font, ws[last], x, y) {
        assert last in order;
        forall j | j in order && DrawsAt(font, ws[j], x, y) ensures ws[j].z <= ws[last].z {
          var k :| 0 <= k < |order| && order[k] == j;
        }
        assert IsLast(font, ws, order, last, x, y, PaintWindows(font, ws, order, x, y, under));
      } else if i: nat :| i in front && IsLast(font, ws, front, i, x, y, below) {
        assert i in order && IsLast(font, ws, order, i, x, y, PaintWindows(font, ws, order, x, y, under));
      }
    }
  }

  /** Painting everything in order shows what ought to be seen, over anything, once the background starts with a clear. */
  lemma FullIsShown(font: Font, d: Desk, x: nat, y: nat, under: nat)
    requires Heights(d.windows) && Cleared(d.back) && OnScreen(x, y)
    ensures FullPaint(font, d, x, y, under) == Shown(font, d, x, y)
  {
    hide Touches, Painted, WindowDraws, DrawsAt, Top;
    var ws := d.windows;
    var order := Order(ws, |ws|);
    var base := Painted(font, BackDraws(d.back), x, y, under);
    OrderSorts(ws, |ws|);
    forall k | 0 <= k < |order| ensures ws[order[k]].used { assert order[k] in order; }
    PaintedLast(font, ws, order, x, y, base);
    ClearedCovers(font, d.back, x, y);
    PaintedUnder(font, BackDraws(d.back), x, y, under, BLACK);
    var top := Top(font, ws, |ws|, x, y);
    if i: nat :| i in order && IsLast(font, ws, order, i, x, y, PaintWindows(font, ws, order, x, y, base)) {
      assert top.Some?;
      UsedIfDraws(font, ws[top.value], x, y);
      assert top.value in order;
      assert ws[top.value].z == ws[i].z;
    } else {
      if top.Some? { UsedIfDraws(font, ws[top.value], x, y); }
    }
  }

  lemma UsedIfDraws(font: Font, w: Window, x: nat, y: nat)
    ensures DrawsAt(font, w, x, y) ==> w.used
  {
  }

  // ---- operations ---------------------------------------------------------------------------------------------

  function Dirty(damage: Rect, r: Rect): Rect { Union(damage, Clamp(r)) }

  function Find(ws: seq<Window>, owner: nat, id: nat): (r: Option<nat>)
    ensures r.Some? ==> r.value < |ws| && ws[r.value].used && ws[r.value].owner == owner && ws[r.value].id == id
    ensures r == None ==> forall i | 0 <= i < |ws| :: !(ws[i].used && ws[i].owner == owner && ws[i].id == id)
  {
    if ws == [] then None
    else if ws[0].used && ws[0].owner == owner && ws[0].id == id then Some(0)
    else
      match Find(ws[1..], owner, id)
      case None => None
      case Some(i) => Some(i + 1)
  }

  function FindFree(ws: seq<Window>): (r: Option<nat>)
    ensures r.Some? ==> r.value < |ws| && !ws[r.value].used
    ensures r == None ==> forall i | 0 <= i < |ws| :: ws[i].used
  {
    if ws == [] then None
    else if !ws[0].used then Some(0)
    else
      match FindFree(ws[1..])
      case None => None
      case Some(i) => Some(i + 1)
  }

  datatype Change = Raise | Move(x: nat, y: nat) | Push(cmd: Draw) | Reset

  /** A text command keeps as many bytes as there is room for, at a scale of at least one. */
  function Kept(cmd: Draw): Draw {
    match cmd
    case Fill(_, _, _, _, _) => cmd
    case Text(x, y, scale, color, bytes) => Text(x, y, Scale(scale), color, CutTo(bytes, MAX_TEXT))
  }

  function Changed(w: Window, c: Change, z: nat): (r: Window)
    ensures r.used == w.used && r.owner == w.owner && r.id == w.id
  {
    match c
    case Raise => w.(z := z)
    case Move(x, y) => w.(rect := Clamp(Rect(x, y, w.rect.w, w.rect.h)))
    case Push(cmd) => if |w.cmds| < MAX_CMDS then w.(cmds := w.cmds + [Kept(cmd)]) else w
    case Reset => w.(cmds := [])
  }

  function Create(d: Desk, owner: nat, id: nat, rect: Rect, bg: nat, title: seq<byte>): Desk {
    if Find(d.windows, owner, id).Some? then d
    else
      match FindFree(d.windows)
      case None => d
      case Some(i) =>
        var w := Window(true, owner, id, Clamp(rect), bg, d.nextZ, CutTo(title, MAX_TITLE), []);
        d.(windows := d.windows[i := w], nextZ := d.nextZ + 1, damage := Dirty(d.damage, w.rect))
  }

  /** An operation on the window of that owner and number, and on no other. */
  function With(d: Desk, owner: nat, id: nat, c: Change): Desk {
    var z, d1 := d.nextZ, if c.Raise? then d.(nextZ := d.nextZ + 1) else d;
    match Find(d1.windows, owner, id)
    case None => d1.(rejected := d1.rejected + 1)
    case Some(i) =>
      var before, after := d1.windows[i], Changed(d1.windows[i], c, z);
      d1.(windows := d1.windows[i := after], damage := Dirty(Dirty(d1.damage, before.rect), after.rect))
  }

  function BackRect(c: Back): Rect {
    match c
    case Clear(_) => WHOLE
    case Box(x, y, w, h, _) => Rect(x, y, w, h)
    case Label(x, y, _, scale, bytes) => Rect(x, y, |bytes| * 8 * Scale(scale), 8 * Scale(scale))
  }

  /** A clear starts the background over; anything else is added, while there is room. */
  function Retain(back: seq<Back>, c: Back): seq<Back> {
    if c.Clear? then [c]
    else if |EncodeAll(back)| + |Encode(c)| > ROOT_CAPACITY then back
    else back + [c]
  }

  function Background(d: Desk, c: Back): Desk {
    d.(back := Retain(d.back, c), damage := if c.Clear? then WHOLE else Dirty(d.damage, BackRect(c)))
  }

  /** Redraw the damaged box, and only that. */
  function Compose(font: Font, d: Desk): Desk {
    var box := Clamp(d.damage);
    if box.w == 0 || box.h == 0 then d
    else d.(damage := EMPTY, fb := (x, y) => if Contains(box, x, y) then FullPaint(font, d, x, y, d.fb(x, y)) else d.fb(x, y))
  }

  datatype Op =
    | DoCreate(owner: nat, id: nat, rect: Rect, bg: nat, title: seq<byte>)
    | DoChange(owner: nat, id: nat, change: Change)
    | DoBackground(cmd: Back)
    | DoCompose

  function Apply(font: Font, d: Desk, op: Op): Desk {
    match op
    case DoCreate(owner, id, rect, bg, title) => Create(d, owner, id, rect, bg, title)
    case DoChange(owner, id, change) => With(d, owner, id, change)
    case DoBackground(cmd) => Background(d, cmd)
    case DoCompose => Compose(font, d)
  }

  // ---- the invariant ------------------------------------------------------------------------------------------

  /** Distinct heights below the next one, and no two windows of one owner and number. */
  ghost predicate Keyed(d: Desk) {
    && Heights(d.windows)
    && (forall i | 0 <= i < |d.windows| && d.windows[i].used :: d.windows[i].z < d.nextZ)
    && (forall i, j | 0 <= i < j < |d.windows| && d.windows[i].used && d.windows[j].used ::
          d.windows[i].owner != d.windows[j].owner || d.windows[i].id != d.windows[j].id)
  }

  predicate FreshAt(font: Font, d: Desk, x: nat, y: nat) {
    OnScreen(x, y) && !Contains(d.damage, x, y) ==> d.fb(x, y) == Shown(font, d, x, y)
  }

  /** Once there is a background, every pixel outside the damage shows what it ought to. */
  ghost predicate Fresh(font: Font, d: Desk) { Cleared(d.back) ==> forall x, y :: FreshAt(font, d, x, y) }

  ghost predicate Inv(font: Font, d: Desk) { Keyed(d) && Fresh(font, d) }

  predicate InsideAt(font: Font, w: Window, x: nat, y: nat) {
    OnScreen(x, y) && DrawsAt(font, w, x, y) ==> Contains(w.rect, x, y)
  }

  /** The window draws inside its rectangle. */
  ghost predicate Contained(font: Font, w: Window) { forall x, y :: InsideAt(font, w, x, y) }

  ghost predicate Tidy(font: Font, d: Desk) { forall i | 0 <= i < |d.windows| :: Contained(font, d.windows[i]) }

  /** A window that does not draw at a pixel may change or go without a difference there. */
  lemma {:induction false} TopSame(font: Font, ws: seq<Window>, i: nat, w: Window, n: nat, x: nat, y: nat)
    requires i < |ws| && n <= |ws| && !DrawsAt(font, ws[i], x, y) && !DrawsAt(font, w, x, y)
    ensures Top(font, ws[i := w], n, x, y) == Top(font, ws, n, x, y) && Top(font, ws, n, x, y) != Some(i)
    decreases n
  {
    hide DrawsAt;
    if n > 0 { TopSame(font, ws, i, w, n - 1, x, y); }
  }

  lemma ShownSame(font: Font, d: Desk, e: Desk, i: nat, x: nat, y: nat)
    requires i < |d.windows| == |e.windows| && e.windows == d.windows[i := e.windows[i]] && e.back == d.back
    requires !DrawsAt(font, d.windows[i], x, y) && !DrawsAt(font, e.windows[i], x, y)
    ensures Shown(font, e, x, y) == Shown(font, d, x, y)
  {
    hide DrawsAt, Top, Painted;
    TopSame(font, d.windows, i, e.windows[i], |d.windows|, x, y);
  }

  /** A change to one window, with both its rectangles marked, leaves every other pixel as it ought to be. */
  lemma UpdateFresh(font: Font, d: Desk, e: Desk, i: nat)
    requires Fresh(font, d) && i < |d.windows| == |e.windows| && e.windows == d.windows[i := e.windows[i]]
    requires e.back == d.back && e.fb == d.fb && Contained(font, d.windows[i]) && Contained(font, e.windows[i])
    requires forall x, y | Contains(d.damage, x, y) :: Contains(e.damage, x, y)
    requires d.windows[i].used ==> forall x, y | OnScreen(x, y) && Contains(d.windows[i].rect, x, y) :: Contains(e.damage, x, y)
    requires forall x, y | OnScreen(x, y) && Contains(e.windows[i].rect, x, y) :: Contains(e.damage, x, y)
    ensures Fresh(font, e)
  {
    hide Shown, Contains;
    if Cleared(e.back) {
      forall x: nat, y: nat
        ensures FreshAt(font, e, x, y)
      {
        if OnScreen(x, y) && !Contains(e.damage, x, y) {
          assert FreshAt(font, d, x, y);
          assert InsideAt(font, d.windows[i], x, y) && InsideAt(font, e.windows[i], x, y);
          ShownSame(font, d, e, i, x, y);
        }
      }
    }
  }

  lemma DirtyCovers(damage: Rect, r: Rect, x: nat, y: nat)
    ensures Contains(damage, x, y) ==> Contains(Dirty(damage, r), x, y)
    ensures OnScreen(x, y) && Contains(r, x, y) ==> Contains(Dirty(damage, r), x, y)
  {
    UnionCovers(damage, Clamp(r), x, y);
    ClampExact(r, x, y);
  }

  lemma CreateKeeps(font: Font, d: Desk, owner: nat, id: nat, rect: Rect, bg: nat, title: seq<byte>)
    requires Inv(font, d) && Tidy(font, d) && Tidy(font, Create(d, owner, id, rect, bg, title))
    ensures Inv(font, Create(d, owner, id, rect, bg, title))
  {
    hide Contains, Dirty, Fresh, Contained, Clamp;
    var e := Create(d, owner, id, rect, bg, title);
    if Find(d.windows, owner, id) == None && FindFree(d.windows).Some? {
      var i := FindFree(d.windows).value;
      forall x: nat, y: nat
        ensures Contains(d.damage, x, y) ==> Contains(e.damage, x, y)
        ensures OnScreen(x, y) && Contains(e.windows[i].rect, x, y) ==> Contains(e.damage, x, y)
      {
        DirtyCovers(d.damage, e.windows[i].rect, x, y);
      }
      assert e.windows == d.windows[i := e.windows[i]];
      UpdateFresh(font, d, e, i);
    }
  }

  lemma WithKeyed(d: Desk, owner: nat, id: nat, c: Change)
    requires Keyed(d)
    ensures Keyed(With(d, owner, id, c))
  {
    hide Dirty, Clamp;
  }

  lemma WithFresh(font: Font, d: Desk, owner: nat, id: nat, c: Change)
    requires Inv(font, d) && Tidy(font, d) && Tidy(font, With(d, owner, id, c))
    ensures Fresh(font, With(d, owner, id, c))
  {
    hide Contains, Dirty, Contained, Clamp, Changed, Find, Keyed, Shown;
    var e := With(d, owner, id, c);
    match Find(d.windows, owner, id)
    case None =>
      forall x, y | Cleared(e.back) ensures FreshAt(font, e, x, y) {
        assert FreshAt(font, d, x, y);
        SameShown(font, d, e, x, y);
      }
    case Some(i) =>
      forall x: nat, y: nat
        ensures Contains(d.damage, x, y) ==> Contains(e.damage, x, y)
        ensures OnScreen(x, y) && Contains(d.windows[i].rect, x, y) ==> Contains(e.damage, x, y)
        ensures OnScreen(x, y) && Contains(e.windows[i].rect, x, y) ==> Contains(e.damage, x, y)
      {
        DirtyCovers(d.damage, d.windows[i].rect, x, y);
        DirtyCovers(Dirty(d.damage, d.windows[i].rect), e.windows[i].rect, x, y);
      }
      assert e.windows == d.windows[i := e.windows[i]];
      UpdateFresh(font, d, e, i);
  }

  lemma SameShown(font: Font, d: Desk, e: Desk, x: nat, y: nat)
    requires d.windows == e.windows && d.back == e.back
    ensures Shown(font, d, x, y) == Shown(font, e, x, y)
  {
  }

  lemma LabelInside(font: Font, x: nat, y: nat, color: nat, scale: nat, bytes: seq<byte>, px: nat, py: nat)
    requires Covers(font, Text(x, y, scale, color, bytes), px, py)
    ensures Contains(Rect(x, y, |bytes| * 8 * Scale(scale), 8 * Scale(scale)), px, py)
  {
    var d, s := Text(x, y, scale, color, bytes), Scale(scale);
    var i :| 0 <= i < |bytes| && CharCovers(font, d, i, px, py);
    Columns(i, |bytes|, s);
  }

  lemma Columns(i: nat, n: nat, s: nat)
    requires i < n
    ensures i * 8 * s + 8 * s <= n * 8 * s && (s > 0 ==> n * 8 * s != 0)
  {
    assert (n - i - 1) * s >= 0;
    assert n * 8 * s == i * 8 * s + 8 * s + 8 * ((n - i - 1) * s);
  }

  /** What a background command draws lies inside the box it marks. */
  lemma BackInside(font: Font, c: Back, x: nat, y: nat)
    requires OnScreen(x, y) && Covers(font, BackDraw(c), x, y)
    ensures Contains(BackRect(c), x, y)
  {
    if c.Label? { LabelInside(font, c.x, c.y, c.color, c.scale, c.bytes, x, y); }
  }

  lemma {:induction false} BackDrawsMore(back: seq<Back>, c: Back)
    ensures BackDraws(back + [c]) == BackDraws(back) + [BackDraw(c)]
  {
    if back == [] {
      assert [] + [c] == [c] && [c][1..] == [];
    } else {
      assert (back + [c])[1..] == back[1..] + [c];
      BackDrawsMore(back[1..], c);
    }
  }

  lemma RetainedPaint(font: Font, back: seq<Back>, c: Back, x: nat, y: nat, under: nat)
    requires !c.Clear? && !Covers(font, BackDraw(c), x, y)
    ensures Painted(font, BackDraws(Retain(back, c)), x, y, under) == Painted(font, BackDraws(back), x, y, under)
  {
    hide Covers, BackDraw, EncodeAll;
    BackDrawsMore(back, c);
    var ds := BackDraws(back) + [BackDraw(c)];
    assert ds[..|ds| - 1] == BackDraws(back);
  }

  lemma BackgroundFresh(font: Font, d: Desk, c: Back)
    requires Fresh(font, d)
    ensures Fresh(font, Background(d, c))
  {
    hide Painted, Covers, Top, Clamp, Union, EncodeAll, Encode;
    var e := Background(d, c);
    if Cleared(e.back) && !c.Clear? && Cleared(d.back) {
      forall x: nat, y: nat
        ensures FreshAt(font, e, x, y)
      {
        DirtyCovers(d.damage, BackRect(c), x, y);
        if OnScreen(x, y) && !Contains(e.damage, x, y) {
          assert FreshAt(font, d, x, y);
          if Covers(font, BackDraw(c), x, y) { BackInside(font, c, x, y); }
          RetainedPaint(font, d.back, c, x, y, BLACK);
        }
      }
    }
  }

  /** A redraw repaints the damaged part of the screen and nothing else. */
  lemma ComposeExact(font: Font, d: Desk, x: nat, y: nat)
    requires OnScreen(x, y)
    ensures Compose(font, d).fb(x, y) == if Contains(d.damage, x, y) then FullPaint(font, d, x, y, d.fb(x, y)) else d.fb(x, y)
  {
    hide FullPaint;
    ClampExact(d.damage, x, y);
  }

  /** After a redraw of the damaged box alone, every pixel is as a repaint of everything would leave it, over anything. */
  lemma ComposeShows(font: Font, d: Desk, x: nat, y: nat, under: nat)
    requires Inv(font, d) && Cleared(d.back) && OnScreen(x, y)
    ensures Compose(font, d).fb(x, y) == FullPaint(font, Compose(font, d), x, y, under)
  {
    hide FullPaint, Contains, Clamp, Shown;
    var e := Compose(font, d);
    FullIsShown(font, d, x, y, d.fb(x, y));
    FullIsShown(font, e, x, y, under);
    SameShown(font, d, e, x, y);
    ClampExact(d.damage, x, y);
    EmptyBox(d.damage, x, y);
    assert FreshAt(font, d, x, y);
  }

  lemma EmptyBox(r: Rect, x: nat, y: nat)
    ensures Clamp(r).w == 0 || Clamp(r).h == 0 ==> !Contains(Clamp(r), x, y)
  {
  }

  lemma ComposeFresh(font: Font, d: Desk)
    requires Inv(font, d)
    ensures Fresh(font, Compose(font, d))
  {
    hide FullPaint, Contains, Clamp, Shown;
    var e := Compose(font, d);
    if Cleared(d.back) {
      forall x: nat, y: nat
        ensures FreshAt(font, e, x, y)
      {
        if OnScreen(x, y) {
          ComposeShows(font, d, x, y, 0);
          FullIsShown(font, e, x, y, 0);
        }
      }
    }
  }

  /** Every operation keeps the invariant, while windows draw inside themselves. */
  lemma StepInv(font: Font, d: Desk, op: Op)
    requires Inv(font, d) && Tidy(font, d) && Tidy(font, Apply(font, d, op))
    ensures Inv(font, Apply(font, d, op))
  {
    hide Fresh, Create, With, Clamp, Union, EncodeAll, Encode, FullPaint, Tidy;
    match op
    case DoCreate(owner, id, rect, bg, title) => CreateKeeps(font, d, owner, id, rect, bg, title);
    case DoChange(owner, id, change) =>
      WithKeyed(d, owner, id, change);
      WithFresh(font, d, owner, id, change);
    case DoBackground(cmd) => BackgroundFresh(font, d, cmd);
    case DoCompose => ComposeFresh(font, d);
  }

  // ---- every run ----------------------------------------------------------------------------------------------

  function Run(font: Font, d: Desk, ops: seq<Op>): Desk
    decreases |ops|
  {
    if ops == [] then d else Run(font, Apply(font, d, ops[0]), ops[1..])
  }

  /** Windows draw inside themselves in every state the run passes through. */
  ghost predicate AlwaysTidy(font: Font, d: Desk, ops: seq<Op>)
    decreases |ops|
  {
    Tidy(font, d) && (ops != [] ==> AlwaysTidy(font, Apply(font, d, ops[0]), ops[1..]))
  }

  lemma {:induction false} RunInv(font: Font, d: Desk, ops: seq<Op>)
    requires Inv(font, d) && AlwaysTidy(font, d, ops)
    ensures Inv(font, Run(font, d, ops))
    decreases |ops|
  {
    hide Inv, Apply, Tidy;
    if ops != [] {
      assert Tidy(font, d) && AlwaysTidy(font, Apply(font, d, ops[0]), ops[1..]);
      assert Tidy(font, Apply(font, d, ops[0]));
      StepInv(font, d, ops[0]);
      RunInv(font, Apply(font, d, ops[0]), ops[1..]);
    }
  }

  /** The desk as the display server starts: a black screen, nothing retained, nothing damaged. */
  predicate Starts(d: Desk) {
    d.back == [] && d.damage == EMPTY && |d.windows| == MAX_WINDOWS && forall i | 0 <= i < |d.windows| :: !d.windows[i].used
  }

  /**
   The main result: in every run of the display server whose windows draw inside themselves, once the background has been
   cleared, redrawing only the damaged box leaves every pixel exactly as repainting everything would, whatever was there.
   */
  lemma PartialIsFull(font: Font, d: Desk, ops: seq<Op>, x: nat, y: nat, under: nat)
    requires Starts(d) && AlwaysTidy(font, d, ops) && OnScreen(x, y)
    requires Cleared(Run(font, d, ops).back)
    ensures var e := Compose(font, Run(font, d, ops)); e.fb(x, y) == FullPaint(font, e, x, y, under)
  {
    hide Compose, FullPaint, Run;
    assert Inv(font, d);
    RunInv(font, d, ops);
    ComposeShows(font, Run(font, d, ops), x, y, under);
  }

  /** A background, once cleared, stays so. */
  lemma StaysCleared(font: Font, d: Desk, op: Op)
    requires Cleared(d.back) || (op.DoBackground? && op.cmd.Clear?)
    ensures Cleared(Apply(font, d, op).back)
  {
    hide EncodeAll, Encode, Find, FullPaint, Clamp;
  }

  // ---- a window that draws outside itself ---------------------------------------------------------------------

  /**
   Without that proviso: after any change to a window of an up-to-date desk, and a redraw, a pixel is right if and only if
   it lies in the box around the window's two rectangles or the change made no difference there.
   */
  lemma StaleIff(font: Font, d: Desk, owner: nat, id: nat, c: Change, x: nat, y: nat)
    requires Inv(font, d) && Cleared(d.back) && d.damage == EMPTY && OnScreen(x, y)
    requires Find(d.windows, owner, id).Some?
    ensures var i := Find(d.windows, owner, id).value;
      var e := With(d, owner, id, c);
      var box := Union(Clamp(d.windows[i].rect), Clamp(e.windows[i].rect));
      Compose(font, e).fb(x, y) == Shown(font, e, x, y) <==> Contains(box, x, y) || Shown(font, e, x, y) == Shown(font, d, x, y)
  {
    hide FullPaint, Shown, Find, Changed;
    var i, e := Find(d.windows, owner, id).value, With(d, owner, id, c);
    var box := Union(Clamp(d.windows[i].rect), Clamp(e.windows[i].rect));
    assert e.damage == box;
    WithKeyed(d, owner, id, c);
    assert FreshAt(font, d, x, y);
    FullIsShown(font, e, x, y, e.fb(x, y));
    ClampExact(box, x, y);
  }

  function FirstFrame(x: nat, y: nat): nat {
    if x < 100 && y < 22 then Shade(7) else if x < 100 && y < 100 then 7 else if 200 <= x < 210 && 222 <= y < 232 then 9 else 5
  }

  /** An up-to-date desk with one window, which has filled a square outside itself. */
  function Overdrawn(cmds: seq<Draw>): Desk {
    var w := Window(true, 1, 1, Rect(0, 0, 100, 100), 7, 1, [], cmds);
    Desk([Clear(5)], [w], 2, EMPTY, FirstFrame, 0)
  }

  lemma PlacedOne(r: Rect, c: Draw)
    ensures PlacedAll(r, [c]) == [Placed(r, c)]
  {
    assert [c][..0] == [];
  }

  const STRAY := Fill(200, 200, 10, 10, 9)

  /** What that window draws, with its stray command and without. */
  lemma OverdrawnPaints(font: Font, x: nat, y: nat)
    ensures DrawsAt(font, Overdrawn([STRAY]).windows[0], x, y) <==> (x < 100 && y < 100) || (200 <= x < 210 && 222 <= y < 232)
    ensures DrawsAt(font, Overdrawn([STRAY]).windows[0], x, y) ==>
      Painted(font, WindowDraws(Overdrawn([STRAY]).windows[0]), x, y, 0) == FirstFrame(x, y)
    ensures DrawsAt(font, Overdrawn([]).windows[0], x, y) <==> x < 100 && y < 100
  {
    var w, v := Overdrawn([STRAY]).windows[0], Overdrawn([]).windows[0];
    PlacedOne(w.rect, STRAY);
    var a, b, t, f := Fill(0, 0, 100, 100, 7), Fill(0, 0, 100, 22, Shade(7)), Text(6, 7, 1, TITLE_COLOR, []), Fill(200, 222, 10, 10, 9);
    var ds := WindowDraws(w);
    assert ds == [a, b, t, f];
    assert !Covers(font, t, x, y);
    assert ds[..3] == [a, b, t] && [a, b, t][..2] == [a, b] && [a, b][..1] == [a] && [a][..0] == [];
    assert Painted(font, ds, x, y, 0) == if Covers(font, f, x, y) then 9 else Painted(font, [a, b, t], x, y, 0);
    assert Painted(font, [a, b, t], x, y, 0) == Painted(font, [a, b], x, y, 0);
    assert Painted(font, [a, b], x, y, 0) == if Covers(font, b, x, y) then Shade(7) else Painted(font, [a], x, y, 0);
    assert Painted(font, [a], x, y, 0) == if Covers(font, a, x, y) then 7 else Painted(font, [], x, y, 0);
    assert Covers(font, ds[0], x, y) <==> Covers(font, a, x, y);
    assert Covers(font, ds[1], x, y) <==> Covers(font, b, x, y);
    assert Covers(font, ds[3], x, y) <==> Covers(font, f, x, y);
    assert WindowDraws(v) == [a, b, t];
    assert Covers(font, WindowDraws(v)[0], x, y) <==> Covers(font, a, x, y);
  }

  lemma BackIsFive(font: Font, x: nat, y: nat, under: nat)
    requires OnScreen(x, y)
    ensures Painted(font, BackDraws([Clear(5)]), x, y, under) == 5
  {
    assert [Clear(5)][1..] == [];
    assert BackDraws([Clear(5)]) == [Fill(0, 0, WIDTH, HEIGHT, 5)];
  }

  lemma OverdrawnIsFresh(font: Font)
    ensures Inv(font, Overdrawn([STRAY]))
  {
    hide DrawsAt, Painted, WindowDraws;
    var d := Overdrawn([STRAY]);
    forall x: nat, y: nat
      ensures FreshAt(font, d, x, y)
    {
      if OnScreen(x, y) {
        OverdrawnPaints(font, x, y);
        BackIsFive(font, x, y, BLACK);
        assert Top(font, d.windows, 1, x, y) == if DrawsAt(font, d.windows[0], x, y) then Some(0) else None;
      }
    }
  }

  /** It does happen: a window that filled a square outside itself and is reset leaves the square on the screen. */
  lemma OutsideIsStale(font: Font)
    ensures Inv(font, Overdrawn([STRAY]))
    ensures var e := Compose(font, With(Overdrawn([STRAY]), 1, 1, Reset));
      e.fb(205, 225) == 9 && Shown(font, e, 205, 225) == 5
  {
    hide DrawsAt, Painted, WindowDraws, FullPaint;
    var d := Overdrawn([STRAY]);
    OverdrawnIsFresh(font);
    OverdrawnPaints(font, 205, 225);
    BackIsFive(font, 205, 225, BLACK);
    assert Find(d.windows, 1, 1) == Some(0);
    var e := With(d, 1, 1, Reset);
    assert e.windows[0] == Overdrawn([]).windows[0];
    assert Top(font, e.windows, 1, 205, 225) == None by { assert Top(font, e.windows, 0, 205, 225) == None; }
    assert e.damage == Rect(0, 0, 100, 100);
    assert Clamp(e.damage) == Rect(0, 0, 100, 100);
    ComposeExact(font, e, 205, 225);
    assert e.fb == d.fb && d.fb(205, 225) == FirstFrame(205, 225) == 9;
    assert e.back == [Clear(5)];
    assert Shown(font, e, 205, 225) == 5;
    SameShown(font, e, Compose(font, e), 205, 225);
  }

  // ---- what each operation does -------------------------------------------------------------------------------

  /** A window created is on top of all others, where it was asked to be as far as that is on the screen, and empty. */
  lemma CreateIs(d: Desk, owner: nat, id: nat, rect: Rect, bg: nat, title: seq<byte>, x: nat, y: nat)
    requires Keyed(d)
    ensures var e := Create(d, owner, id, rect, bg, title);
      var taken := exists i | 0 <= i < |d.windows| :: d.windows[i].used && d.windows[i].owner == owner && d.windows[i].id == id;
      var full := forall i | 0 <= i < |d.windows| :: d.windows[i].used;
      if taken || full then e == d
      else
        && Find(e.windows, owner, id).Some? && |e.windows| == |d.windows|
        && var i := Find(e.windows, owner, id).value;
        var w := e.windows[i];
        && !d.windows[i].used && w.bg == bg && w.cmds == [] && w.title <= title && (w.title == title || |w.title| == 24)
        && (Contains(w.rect, x, y) <==> Contains(rect, x, y) && OnScreen(x, y))
        && (forall j | 0 <= j < |d.windows| && j != i :: e.windows[j] == d.windows[j] && (d.windows[j].used ==> d.windows[j].z < w.z))
  {
    hide Contains, Clamp, Union;
    ClampExact(rect, x, y);
    var free := FindFree(d.windows);
    if Find(d.windows, owner, id) == None && free.Some? {
      var e := Create(d, owner, id, rect, bg, title);
      assert e.windows[free.value].used && e.windows[free.value].owner == owner && e.windows[free.value].id == id;
    }
  }

  /** What a change does to the window it is for: raised above all others, moved, drawn in once more, or emptied. */
  lemma ChangeIs(d: Desk, owner: nat, id: nat, c: Change, x: nat, y: nat)
    requires Keyed(d)
    ensures var e, found := With(d, owner, id, c), Find(d.windows, owner, id);
      if found == None then e.windows == d.windows && e.damage == d.damage && e.rejected == d.rejected + 1
      else
        && |e.windows| == |d.windows| && e.rejected == d.rejected
        && var i := found.value;
        var v, w := d.windows[i], e.windows[i];
        && w.used && w.owner == owner && w.id == id && w.bg == v.bg && w.title == v.title
        && (forall j | 0 <= j < |d.windows| && j != i :: e.windows[j] == d.windows[j])
        && match c
           case Raise => w == v.(z := w.z) && forall j | 0 <= j < |d.windows| && j != i && d.windows[j].used :: d.windows[j].z < w.z
           case Move(mx, my) =>
             && w == v.(rect := w.rect)
             && (Contains(w.rect, x, y) <==> Contains(Rect(mx, my, v.rect.w, v.rect.h), x, y) && OnScreen(x, y))
           case Push(cmd) =>
             if |v.cmds| < 24 then |w.cmds| == |v.cmds| + 1 && w == v.(cmds := w.cmds) && w.cmds[..|v.cmds|] == v.cmds && IsKept(cmd, w.cmds[|v.cmds|])
             else w == v
           case Reset => w == v.(cmds := [])
  {
    hide Contains, Clamp, Union;
    if c.Move? && Find(d.windows, owner, id).Some? {
      var v := d.windows[Find(d.windows, owner, id).value];
      ClampExact(Rect(c.x, c.y, v.rect.w, v.rect.h), x, y);
    }
  }

  /** A command as it is kept: a fill whole; a text at its place and colour, at a scale of at least one, its first 40 bytes. */
  predicate IsKept(cmd: Draw, k: Draw) {
    match cmd
    case Fill(_, _, _, _, _) => k == cmd
    case Text(x, y, scale, color, bytes) =>
      k.Text? && k.x == x && k.y == y && k.color == color && (scale > 0 ==> k.scale == scale) && (scale == 0 ==> k.scale == 1)
      && k.bytes <= bytes && (k.bytes == bytes || |k.bytes| == 40)
  }

  /**
   A background command with room for it is seen at once, once the damage is redrawn, wherever it draws and no window does; one
   without room changes nothing; and a clear starts over.
   */
  lemma BackgroundIs(font: Font, d: Desk, c: Back, x: nat, y: nat)
    requires OnScreen(x, y)
    ensures var e := Background(d, c);
      && e.windows == d.windows
      && (c.Clear? ==> e.back == [c])
      && (!c.Clear? && |EncodeAll(d.back)| + |Encode(c)| > 16384 ==> e.back == d.back)
      && (c.Clear? || |EncodeAll(d.back)| + |Encode(c)| <= 16384 ==>
            Covers(font, BackDraw(c), x, y) && Top(font, d.windows, |d.windows|, x, y) == None ==> Shown(font, e, x, y) == c.color)
      && (!c.Clear? && !Covers(font, BackDraw(c), x, y) ==> Shown(font, e, x, y) == Shown(font, d, x, y))
  {
    hide Covers, EncodeAll, Encode, Top, Clamp, Union;
    var e := Background(d, c);
    if c.Clear? {
      BackDrawsMore([], c);
      assert [] + [c] == [c];
      LastPainted(font, [], BackDraw(c), x, y);
    } else if |EncodeAll(d.back)| + |Encode(c)| <= 16384 {
      BackDrawsMore(d.back, c);
      LastPainted(font, BackDraws(d.back), BackDraw(c), x, y);
    }
  }

  lemma LastPainted(font: Font, ds: seq<Draw>, l: Draw, x: nat, y: nat)
    ensures Painted(font, ds + [l], x, y, BLACK) == if Covers(font, l, x, y) then l.color else Painted(font, ds, x, y, BLACK)
  {
    hide Covers;
    assert (ds + [l])[..|ds|] == ds;
  }

  // ---- taps and owners ----------------------------------------------------------------------------------------

  /** The scan `hit` makes: the highest used window whose rectangle contains the point. */
  function Hit(ws: seq<Window>, n: nat, x: nat, y: nat): (r: Option<nat>)
    requires n <= |ws|
    ensures r.Some? ==> r.value < n && ws[r.value].used && Contains(ws[r.value].rect, x, y)
  {
    if n == 0 then None
    else
      var t := Hit(ws, n - 1, x, y);
      if ws[n - 1].used && Contains(ws[n - 1].rect, x, y) && (t == None || ws[n - 1].z > ws[t.value].z) then Some(n - 1) else t
  }

  lemma DrawsWhereItIs(font: Font, w: Window, x: nat, y: nat)
    requires Contained(font, w) && OnScreen(x, y)
    ensures DrawsAt(font, w, x, y) <==> w.used && Contains(w.rect, x, y)
  {
    assert InsideAt(font, w, x, y);
    if w.used && Contains(w.rect, x, y) { assert Covers(font, WindowDraws(w)[0], x, y); }
  }

  /** A tap goes to the window that is seen at that point, and to the background exactly where that is seen. */
  lemma {:induction false} TapGoesToWhatIsSeen(font: Font, d: Desk, n: nat, x: nat, y: nat)
    requires Tidy(font, d) && n <= |d.windows| && OnScreen(x, y)
    ensures Hit(d.windows, n, x, y) == Top(font, d.windows, n, x, y)
    decreases n
  {
    hide DrawsAt, Contains, Contained;
    if n > 0 {
      TapGoesToWhatIsSeen(font, d, n - 1, x, y);
      DrawsWhereItIs(font, d.windows[n - 1], x, y);
    }
  }

  /** Who sends an operation, when it is about a window. */
  predicate SentBy(op: Op, owner: nat) {
    (op.DoCreate? && op.owner == owner) || (op.DoChange? && op.owner == owner)
  }

  /** An operation leaves every window alone except one of its sender's own. */
  lemma OthersAreUntouched(font: Font, d: Desk, op: Op, i: nat)
    requires i < |d.windows| && d.windows[i].used && !SentBy(op, d.windows[i].owner)
    ensures |Apply(font, d, op).windows| == |d.windows| && Apply(font, d, op).windows[i] == d.windows[i]
  {
    hide Clamp, Union, EncodeAll, Encode, FullPaint, Changed;
  }
}
