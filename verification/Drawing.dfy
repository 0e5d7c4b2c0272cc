/** Rectangles, drawing commands, and the colour that a list of commands leaves at a pixel. */
module Drawing {
  import opened Bytes

  const WIDTH: nat := 480
  const HEIGHT: nat := 960

  predicate OnScreen(x: nat, y: nat) { x < WIDTH && y < HEIGHT }

  // ---- rectangles -----------------------------------------------------------------------------------------

  datatype Rect = Rect(x: nat, y: nat, w: nat, h: nat)

  const EMPTY := Rect(0, 0, 0, 0)
  const WHOLE := Rect(0, 0, WIDTH, HEIGHT)

  function Min(a: nat, b: nat): nat { if a <= b then a else b }
  function Max(a: nat, b: nat): nat { if a <= b then b else a }

  predicate Contains(r: Rect, x: nat, y: nat) { r.w != 0 && r.x <= x < r.x + r.w && r.y <= y < r.y + r.h }

  /** One box for both, or the other when one has no width. */
  function Union(a: Rect, b: Rect): Rect {
    if a.w == 0 then b
    else if b.w == 0 then a
    else
      var x0, y0 := Min(a.x, b.x), Min(a.y, b.y);
      Rect(x0, y0, Max(a.x + a.w, b.x + b.w) - x0, Max(a.y + a.h, b.y + b.h) - y0)
  }

  function Clamp(r: Rect): Rect {
    var x, y := Min(r.x, WIDTH), Min(r.y, HEIGHT);
    Rect(x, y, Max(Min(r.x + r.w, WIDTH), x) - x, Max(Min(r.y + r.h, HEIGHT), y) - y)
  }

  /** The union covers both. */
  lemma UnionCovers(a: Rect, b: Rect, x: nat, y: nat)
    ensures Contains(a, x, y) || Contains(b, x, y) ==> Contains(Union(a, b), x, y)
  {
  }

  predicate Encloses(outer: Rect, r: Rect) {
    outer.x <= r.x && outer.y <= r.y && r.x + r.w <= outer.x + outer.w && r.y + r.h <= outer.y + outer.h
  }

  /** ... and is the smallest box that does. */
  lemma UnionLeast(a: Rect, b: Rect, box: Rect)
    requires Encloses(box, a) && Encloses(box, b)
    ensures Encloses(box, Union(a, b))
  {
  }

  /** Clamping keeps exactly the pixels on the screen. */
  lemma ClampExact(r: Rect, x: nat, y: nat)
    ensures Contains(Clamp(r), x, y) <==> Contains(r, x, y) && OnScreen(x, y)
  {
  }

  // ---- commands -------------------------------------------------------------------------------------------

  datatype Draw =
    | Fill(x: nat, y: nat, w: nat, h: nat, color: nat)
    | Text(x: nat, y: nat, scale: nat, color: nat, bytes: seq<byte>)

  /** Whether the font's glyph for a character has a dot at a row and column. */
  type Font = (byte, nat, nat) -> bool

  const FIRST: nat := 0x20
  const LAST: nat := 0x5F

  /** Lower case is drawn as upper case; a character without a glyph is not drawn. */
  predicate Lit(font: Font, ch: byte, row: nat, col: nat) {
    var c: byte := if 97 <= ch <= 122 then ch - 32 else ch;
    FIRST <= c <= LAST && font(c, row, col)
  }

  /** Small letters are drawn as capitals; blank to underscore as the font has them; nothing else at all. */
  lemma LitIs(font: Font, ch: byte, row: nat, col: nat)
    ensures 'a' as int <= ch <= 'z' as int ==> Lit(font, ch, row, col) == Lit(font, ch - ('a' as int - 'A' as int), row, col)
    ensures ' ' as int <= ch <= '_' as int ==> Lit(font, ch, row, col) == font(ch, row, col)
    ensures ch < ' ' as int || ('_' as int < ch < 'a' as int) || 'z' as int < ch ==> !Lit(font, ch, row, col)
  {
  }

  /** The dot of a glyph at (`gx`, `gy`) that pixel (`x`, `y`) belongs to is lit. */
  predicate GlyphCovers(font: Font, ch: byte, gx: nat, gy: nat, s: nat, x: nat, y: nat)
    requires s > 0
  {
    && gx <= x < gx + 8 * s && gy <= y < gy + 8 * s
    && Lit(font, ch, (y - gy) / s, (x - gx) / s)
  }

  function Scale(s: nat): (r: nat)
    ensures r > 0
  {
    Max(s, 1)
  }

  predicate CharCovers(font: Font, d: Draw, i: nat, x: nat, y: nat)
    requires d.Text? && i < |d.bytes|
  {
    GlyphCovers(font, d.bytes[i], d.x + i * 8 * Scale(d.scale), d.y, Scale(d.scale), x, y)
  }

  predicate Covers(font: Font, d: Draw, x: nat, y: nat) {
    match d
    case Fill(fx, fy, w, h, _) => fx <= x < fx + w && fy <= y < fy + h
    case Text(_, _, _, _, bytes) => exists i | 0 <= i < |bytes| :: CharCovers(font, d, i, x, y)
  }

  /** The colour at a pixel once the commands have run over `under`. */
  function Painted(font: Font, ds: seq<Draw>, x: nat, y: nat, under: nat): nat
    decreases |ds|
  {
    if ds == [] then under
    else
      var n := |ds| - 1;
      if Covers(font, ds[n], x, y) then ds[n].color else Painted(font, ds[..n], x, y, under)
  }

  predicate Touches(font: Font, ds: seq<Draw>, x: nat, y: nat) { exists i | 0 <= i < |ds| :: Covers(font, ds[i], x, y) }

  lemma {:induction false} PaintedTwice(font: Font, a: seq<Draw>, b: seq<Draw>, x: nat, y: nat, under: nat)
    ensures Painted(font, a + b, x, y, under) == Painted(font, b, x, y, Painted(font, a, x, y, under))
    decreases |b|
  {
    hide Covers;
    if b == [] {
      assert a + b == a;
    } else {
      var n := |b| - 1;
      assert (a + b)[..|a| + n] == a + b[..n] && (a + b)[|a| + n] == b[n];
      PaintedTwice(font, a, b[..n], x, y, under);
    }
  }

  /** Commands that miss a pixel leave it; commands that hit it decide it alone. */
  lemma {:induction false} PaintedUnder(font: Font, ds: seq<Draw>, x: nat, y: nat, u: nat, v: nat)
    ensures !Touches(font, ds, x, y) ==> Painted(font, ds, x, y, u) == u
    ensures Touches(font, ds, x, y) ==> Painted(font, ds, x, y, u) == Painted(font, ds, x, y, v)
    decreases |ds|
  {
    hide Covers;
    if ds != [] {
      var n := |ds| - 1;
      PaintedUnder(font, ds[..n], x, y, u, v);
      if Touches(font, ds, x, y) && !Covers(font, ds[n], x, y) {
        var i :| 0 <= i < |ds| && Covers(font, ds[i], x, y);
        assert ds[..n][i] == ds[i];
      } else if Touches(font, ds[..n], x, y) {
        var i :| 0 <= i < n && Covers(font, ds[..n][i], x, y);
        assert ds[..n][i] == ds[i];
      }
    }
  }

  // ---- the retained background ----------------------------------------------------------------------------

  const OP_CLEAR: byte := 1
  const OP_RECT: byte := 2
  const OP_TEXT: byte := 3
  const ROOT_CAPACITY: nat := 16384

  function Be16(v: nat): (b: seq<byte>)
    ensures |b| == 2
  {
    var high: nat, low: nat := v / 256 % 256, v % 256;
    [high, low]
  }

  function FromBe16(b: seq<byte>, at: nat): nat
    requires at + 2 <= |b|
  {
    var high: nat, low: nat := b[at], b[at + 1];
    high * 256 + low
  }

  datatype Back = Clear(color: nat) | Box(x: nat, y: nat, w: nat, h: nat, color: nat) | Label(x: nat, y: nat, color: nat, scale: nat, bytes: seq<byte>)

  /** A background command as it arrives: coordinates of two bytes, colours of four, the length of a label in one. */
  function Encode(c: Back): (b: seq<byte>)
    ensures |b| > 0
  {
    match c
    case Clear(color) => [OP_CLEAR] + Le(color, 4)
    case Box(x, y, w, h, color) => [OP_RECT] + Be16(x) + Be16(y) + Be16(w) + Be16(h) + Le(color, 4)
    case Label(x, y, color, scale, bytes) => [OP_TEXT] + Be16(x) + Be16(y) + Le(color, 4) + [scale % 256, |bytes| % 256] + bytes
  }

  predicate BackFits(c: Back) {
    && c.color < U32
    && (c.Box? ==> c.x < 65536 && c.y < 65536 && c.w < 65536 && c.h < 65536)
    && (c.Label? ==> c.x < 65536 && c.y < 65536 && c.scale < 256 && |c.bytes| < 256)
  }

  function BackDraw(c: Back): Draw {
    match c
    case Clear(color) => Fill(0, 0, WIDTH, HEIGHT, color)
    case Box(x, y, w, h, color) => Fill(x, y, w, h, color)
    case Label(x, y, color, scale, bytes) => Text(x, y, scale, color, bytes)
  }

  /** How many bytes the command at the head of `b` takes; none when it is cut short or unknown. */
  function HeadLength(b: seq<byte>): (n: nat)
    ensures n <= |b|
    ensures n > 0 && b[0] == OP_TEXT ==> n >= 11
  {
    if b == [] then 0
    else if b[0] == OP_CLEAR && |b| >= 5 then 5
    else if b[0] == OP_RECT && |b| >= 13 then 13
    else if b[0] == OP_TEXT && |b| >= 11 && |b| - 11 >= b[10] then var text: nat := b[10]; 11 + text
    else 0
  }

  function HeadDraw(b: seq<byte>): Draw
    requires HeadLength(b) > 0
  {
    if b[0] == OP_CLEAR then Fill(0, 0, WIDTH, HEIGHT, U32At(b, 1))
    else if b[0] == OP_RECT then Fill(FromBe16(b, 1), FromBe16(b, 3), FromBe16(b, 5), FromBe16(b, 7), U32At(b, 9))
    else Text(FromBe16(b, 1), FromBe16(b, 3), b[9], U32At(b, 5), b[11..11 + b[10]])
  }

  /** The replay of the retained bytes. */
  function Replay(b: seq<byte>): seq<Draw>
    decreases |b|
  {
    if HeadLength(b) == 0 then [] else [HeadDraw(b)] + Replay(b[HeadLength(b)..])
  }

  lemma Be16RoundTrip(b: seq<byte>, at: nat, v: nat)
    requires v < 65536 && at + 2 <= |b| && b[at..at + 2] == Be16(v)
    ensures FromBe16(b, at) == v
  {
    assert b[at] == b[at..at + 2][0] && b[at + 1] == b[at..at + 2][1];
  }

  lemma BoxReads(c: Back, rest: seq<byte>)
    requires BackFits(c) && c.Box?
    ensures HeadLength(Encode(c) + rest) == |Encode(c)| && HeadDraw(Encode(c) + rest) == BackDraw(c)
  {
    hide Le, FromLe, Be16, FromBe16;
    var b := Encode(c) + rest;
    assert b[1..3] == Be16(c.x) && b[3..5] == Be16(c.y) && b[5..7] == Be16(c.w) && b[7..9] == Be16(c.h);
    assert b[9..13] == Le(c.color, 4);
    Be16RoundTrip(b, 1, c.x);
    Be16RoundTrip(b, 3, c.y);
    Be16RoundTrip(b, 5, c.w);
    Be16RoundTrip(b, 7, c.h);
    ReadU32(b, 9, c.color);
  }

  lemma LabelReads(c: Back, rest: seq<byte>)
    requires BackFits(c) && c.Label?
    ensures HeadLength(Encode(c) + rest) == |Encode(c)| && HeadDraw(Encode(c) + rest) == BackDraw(c)
  {
    hide Le, FromLe, Be16, FromBe16;
    var b := Encode(c) + rest;
    assert b[1..3] == Be16(c.x) && b[3..5] == Be16(c.y) && b[5..9] == Le(c.color, 4) && b[9] == c.scale && b[10] == |c.bytes|;
    assert b[11..11 + |c.bytes|] == c.bytes;
    Be16RoundTrip(b, 1, c.x);
    Be16RoundTrip(b, 3, c.y);
    ReadU32(b, 5, c.color);
  }

  /** The command at the head of what is retained is read as it was sent, whatever follows it. */
  lemma HeadReads(c: Back, rest: seq<byte>)
    requires BackFits(c)
    ensures HeadLength(Encode(c) + rest) == |Encode(c)| && HeadDraw(Encode(c) + rest) == BackDraw(c)
  {
    hide Le, FromLe, Be16, FromBe16;
    if c.Box? {
      BoxReads(c, rest);
    } else if c.Label? {
      LabelReads(c, rest);
    } else {
      assert (Encode(c) + rest)[1..5] == Le(c.color, 4);
      ReadU32(Encode(c) + rest, 1, c.color);
    }
  }

  /** Bytes retained from whole commands. */
  function EncodeAll(cs: seq<Back>): seq<byte> {
    if cs == [] then [] else Encode(cs[0]) + EncodeAll(cs[1..])
  }

  function BackDraws(cs: seq<Back>): seq<Draw> {
    if cs == [] then [] else [BackDraw(cs[0])] + BackDraws(cs[1..])
  }

  /** Replaying what was retained draws the commands that were sent, in order. */
  lemma {:induction false} ReplayRoundTrip(cs: seq<Back>)
    requires forall i | 0 <= i < |cs| :: BackFits(cs[i])
    ensures Replay(EncodeAll(cs)) == BackDraws(cs)
  {
    hide Encode, HeadLength, HeadDraw;
    if cs != [] {
      var rest := EncodeAll(cs[1..]);
      HeadReads(cs[0], rest);
      assert (Encode(cs[0]) + rest)[|Encode(cs[0])|..] == rest;
      ReplayRoundTrip(cs[1..]);
    } else {
      Nothing();
    }
  }

  lemma Nothing()
    ensures HeadLength([]) == 0
  {
  }

  lemma {:induction false} EncodeMore(cs: seq<Back>, c: Back)
    ensures EncodeAll(cs + [c]) == EncodeAll(cs) + Encode(c)
  {
    if cs == [] {
      assert [] + [c] == [c] && [c][1..] == [];
    } else {
      assert (cs + [c])[1..] == cs[1..] + [c];
      EncodeMore(cs[1..], c);
    }
  }
}
