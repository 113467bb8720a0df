/** cp437_to_ascii (noansi.c:380-444): every glyph is replaced by a printable
    ASCII stand-in, and the shading glyphs adjust the cell's flags. */
module Charset {
  import opened Cells

  /** cp437_to_ascii_map: the ASCII stand-in of each CP437 glyph. Every entry
      is a printable ASCII byte, so no control byte ever reaches the output. */
  function Cp437(b: Byte): (a: Byte)
    ensures 0x20 <= a <= 0x7e
  {
    if b < 0x40 then Quarter0(b)
    else if b < 0x80 then Quarter1(b)
    else if b < 0xc0 then Quarter2(b)
    else Quarter3(b)
  }

  // The table, 64 entries at a time.

  function Quarter0(b: Byte): (a: Byte)
    requires b < 0x40
    ensures 0x20 <= a <= 0x7e
  {
    match b
    case 0x00 => 0x20  case 0x01 => 0x40  case 0x02 => 0x40  case 0x03 => 0x2a
    case 0x04 => 0x78  case 0x05 => 0x41  case 0x06 => 0x2a  case 0x07 => 0x2a
    case 0x08 => 0x2a  case 0x09 => 0x6f  case 0x0a => 0x2a  case 0x0b => 0x36
    case 0x0c => 0x51  case 0x0d => 0x66  case 0x0e => 0x4d  case 0x0f => 0x2a
    case 0x10 => 0x3e  case 0x11 => 0x3c  case 0x12 => 0x24  case 0x13 => 0x21
    case 0x14 => 0x50  case 0x15 => 0x53  case 0x16 => 0x5f  case 0x17 => 0x24
    case 0x18 => 0x5e  case 0x19 => 0x76  case 0x1a => 0x3e  case 0x1b => 0x3c
    case 0x1c => 0x5f  case 0x1d => 0x2d  case 0x1e => 0x41  case 0x1f => 0x76
    case 0x20 => 0x20  case 0x21 => 0x21  case 0x22 => 0x22  case 0x23 => 0x23
    case 0x24 => 0x24  case 0x25 => 0x25  case 0x26 => 0x26  case 0x27 => 0x27
    case 0x28 => 0x28  case 0x29 => 0x29  case 0x2a => 0x2a  case 0x2b => 0x2b
    case 0x2c => 0x2c  case 0x2d => 0x2d  case 0x2e => 0x2e  case 0x2f => 0x2f
    case 0x30 => 0x30  case 0x31 => 0x31  case 0x32 => 0x32  case 0x33 => 0x33
    case 0x34 => 0x34  case 0x35 => 0x35  case 0x36 => 0x36  case 0x37 => 0x37
    case 0x38 => 0x38  case 0x39 => 0x39  case 0x3a => 0x3a  case 0x3b => 0x3b
    case 0x3c => 0x3c  case 0x3d => 0x3d  case 0x3e => 0x3e  case _ => 0x3f
  }

  function Quarter1(b: Byte): (a: Byte)
    requires 0x40 <= b < 0x80
    ensures 0x20 <= a <= 0x7e
  {
    match b
    case 0x40 => 0x40  case 0x41 => 0x41  case 0x42 => 0x42  case 0x43 => 0x43
    case 0x44 => 0x44  case 0x45 => 0x45  case 0x46 => 0x46  case 0x47 => 0x47
    case 0x48 => 0x48  case 0x49 => 0x49  case 0x4a => 0x4a  case 0x4b => 0x4b
    case 0x4c => 0x4c  case 0x4d => 0x4d  case 0x4e => 0x4e  case 0x4f => 0x4f
    case 0x50 => 0x50  case 0x51 => 0x51  case 0x52 => 0x52  case 0x53 => 0x53
    case 0x54 => 0x54  case 0x55 => 0x55  case 0x56 => 0x56  case 0x57 => 0x57
    case 0x58 => 0x58  case 0x59 => 0x59  case 0x5a => 0x5a  case 0x5b => 0x5b
    case 0x5c => 0x5c  case 0x5d => 0x5d  case 0x5e => 0x5e  case 0x5f => 0x5f
    case 0x60 => 0x60  case 0x61 => 0x61  case 0x62 => 0x62  case 0x63 => 0x63
    case 0x64 => 0x64  case 0x65 => 0x65  case 0x66 => 0x66  case 0x67 => 0x67
    case 0x68 => 0x68  case 0x69 => 0x69  case 0x6a => 0x6a  case 0x6b => 0x6b
    case 0x6c => 0x6c  case 0x6d => 0x6d  case 0x6e => 0x6e  case 0x6f => 0x6f
    case 0x70 => 0x70  case 0x71 => 0x71  case 0x72 => 0x72  case 0x73 => 0x73
    case 0x74 => 0x74  case 0x75 => 0x75  case 0x76 => 0x76  case 0x77 => 0x77
    case 0x78 => 0x78  case 0x79 => 0x79  case 0x7a => 0x7a  case 0x7b => 0x7b
    case 0x7c => 0x7c  case 0x7d => 0x7d  case 0x7e => 0x7e  case _ => 0x5e
  }

  function Quarter2(b: Byte): (a: Byte)
    requires 0x80 <= b < 0xc0
    ensures 0x20 <= a <= 0x7e
  {
    match b
    case 0x80 => 0x43  case 0x81 => 0x75  case 0x82 => 0x65  case 0x83 => 0x61
    case 0x84 => 0x61  case 0x85 => 0x61  case 0x86 => 0x61  case 0x87 => 0x63
    case 0x88 => 0x65  case 0x89 => 0x65  case 0x8a => 0x65  case 0x8b => 0x69
    case 0x8c => 0x69  case 0x8d => 0x69  case 0x8e => 0x41  case 0x8f => 0x41
    case 0x90 => 0x45  case 0x91 => 0x25  case 0x92 => 0x41  case 0x93 => 0x6f
    case 0x94 => 0x6f  case 0x95 => 0x6f  case 0x96 => 0x75  case 0x97 => 0x75
    case 0x98 => 0x79  case 0x99 => 0x4f  case 0x9a => 0x55  case 0x9b => 0x63
    case 0x9c => 0x4c  case 0x9d => 0x59  case 0x9e => 0x50  case 0x9f => 0x66
    case 0xa0 => 0x61  case 0xa1 => 0x69  case 0xa2 => 0x6f  case 0xa3 => 0x75
    case 0xa4 => 0x6e  case 0xa5 => 0x4e  case 0xa6 => 0x7e  case 0xa7 => 0x5e
    case 0xa8 => 0x3f  case 0xa9 => 0x2b  case 0xaa => 0x2b  case 0xab => 0x58
    case 0xac => 0x4b  case 0xad => 0x21  case 0xae => 0x3c  case 0xaf => 0x3e
    case 0xb0 => 0x23  case 0xb1 => 0x40  case 0xb2 => 0x23  case 0xb3 => 0x7c
    case 0xb4 => 0x2b  case 0xb5 => 0x2b  case 0xb6 => 0x2b  case 0xb7 => 0x2b
    case 0xb8 => 0x2b  case 0xb9 => 0x2b  case 0xba => 0x7c  case 0xbb => 0x2b
    case 0xbc => 0x2b  case 0xbd => 0x2b  case 0xbe => 0x2b  case _ => 0x2b
  }

  function Quarter3(b: Byte): (a: Byte)
    requires 0xc0 <= b
    ensures 0x20 <= a <= 0x7e
  {
    match b
    case 0xc0 => 0x2b  case 0xc1 => 0x2b  case 0xc2 => 0x2b  case 0xc3 => 0x2b
    case 0xc4 => 0x2d  case 0xc5 => 0x2b  case 0xc6 => 0x2b  case 0xc7 => 0x2b
    case 0xc8 => 0x2b  case 0xc9 => 0x2b  case 0xca => 0x2b  case 0xcb => 0x2b
    case 0xcc => 0x2b  case 0xcd => 0x3d  case 0xce => 0x2b  case 0xcf => 0x2b
    case 0xd0 => 0x2b  case 0xd1 => 0x2b  case 0xd2 => 0x2b  case 0xd3 => 0x2b
    case 0xd4 => 0x2b  case 0xd5 => 0x2b  case 0xd6 => 0x2b  case 0xd7 => 0x2b
    case 0xd8 => 0x2b  case 0xd9 => 0x2b  case 0xda => 0x2b  case 0xdb => 0x20
    case 0xdc => 0x6d  case 0xdd => 0x7c  case 0xde => 0x7c  case 0xdf => 0x22
    case 0xe0 => 0x61  case 0xe1 => 0x42  case 0xe2 => 0x72  case 0xe3 => 0x6e
    case 0xe4 => 0x45  case 0xe5 => 0x71  case 0xe6 => 0x75  case 0xe7 => 0x72
    case 0xe8 => 0x49  case 0xe9 => 0x30  case 0xea => 0x2a  case 0xeb => 0x6f
    case 0xec => 0x2a  case 0xed => 0x30  case 0xee => 0x45  case 0xef => 0x6e
    case 0xf0 => 0x3d  case 0xf1 => 0x2b  case 0xf2 => 0x3e  case 0xf3 => 0x3c
    case 0xf4 => 0x6c  case 0xf5 => 0x6a  case 0xf6 => 0x25  case 0xf7 => 0x3d
    case 0xf8 => 0x2a  case 0xf9 => 0x2e  case 0xfa => 0x2e  case 0xfb => 0x6a
    case 0xfc => 0x6e  case 0xfd => 0x32  case 0xfe => 0x23  case _ => 0x20
  }

  /** `rest ^= flag`. */
  function Toggle(s: set<Flag>, f: Flag): (t: set<Flag>)
    ensures f in t <==> f !in s
    ensures forall g :: g != f ==> (g in t <==> g in s)
  {
    if f in s then s - {f} else s + {f}
  }

  /** The glyphs whose translation flips inverse and bright background (the
      inverse smiley face 0x02, the dark shade 0xb2 and the full block 0xdb),
      and the medium shade 0xb1, which flips bold. */
  predicate IsSolid(ch: Byte) { ch == 0x02 || ch == 0xb2 || ch == 0xdb }
  predicate IsShade(ch: Byte) { ch == 0xb1 }

  /** The flags the translation of a glyph flips. */
  function Flipped(ch: Byte): set<Flag>
  {
    if IsSolid(ch) then {BgBold, Inverse} else if IsShade(ch) then {Bold} else {}
  }

  /** One cell of cp437_to_ascii: the glyph goes through the table, the colours
      stay, and exactly the flags of Flipped(glyph) change. */
  function TranslateCell(c: Cell): (r: Cell)
    ensures r.ch == Cp437(c.ch) && r.fg == c.fg && r.bg == c.bg
    ensures forall f :: f in r.flags <==> (f in c.flags <==> f !in Flipped(c.ch))
  {
    var rest :=
      if IsSolid(c.ch) then Toggle(Toggle(c.flags, BgBold), Inverse)
      else if IsShade(c.ch) then Toggle(c.flags, Bold)
      else c.flags;
    Cell(Cp437(c.ch), c.fg, c.bg, rest)
  }

  /** The whole-screen pass. */
  function Translate(g: Grid): (h: Grid)
    requires IsGrid(g)
    ensures IsGrid(h)
  {
    MapCells(g, TranslateCell)
  }

  /** cp437_to_ascii on the screen array. */
  method CpToAscii(screen: array2<Cell>)
    requires screen.Length0 == NROWS && screen.Length1 == NCOLS
    modifies screen
    ensures Snapshot(screen) == Translate(old(Snapshot(screen)))
  {
    ghost var g := Snapshot(screen);
    for i := 0 to NROWS
      invariant forall r, k :: 0 <= r < i && 0 <= k < NCOLS ==> screen[r, k] == TranslateCell(g[r][k])
      invariant forall r, k :: i <= r < NROWS && 0 <= k < NCOLS ==> screen[r, k] == g[r][k]
    {
      for j := 0 to NCOLS
        invariant forall r, k :: 0 <= r < i && 0 <= k < NCOLS ==> screen[r, k] == TranslateCell(g[r][k])
        invariant forall k :: 0 <= k < j ==> screen[i, k] == TranslateCell(g[i][k])
        invariant forall r, k :: 0 <= r < NROWS && 0 <= k < NCOLS && (r > i || (r == i && k >= j)) ==> screen[r, k] == g[r][k]
      {
        var c := screen[i, j];
        var rest := c.flags;
        if c.ch == 0x02 || c.ch == 0xb2 || c.ch == 0xdb {
          rest := Toggle(rest, BgBold);
          rest := Toggle(rest, Inverse);
        } else if c.ch == 0xb1 {
          rest := Toggle(rest, Bold);
        }
        screen[i, j] := Cell(Cp437(c.ch), c.fg, c.bg, rest);
      }
    }
    SnapshotIs(screen, Translate(g));
  }

  /** The default cell translates to itself, so untouched screen positions stay
      recognisable as such in the later passes. */
  lemma TranslateDefault()
    ensures TranslateCell(DefaultChar) == DefaultChar
  {
    assert Cp437(32) == 32;
    assert Flipped(32) == {};
  }

  /** The translation never sets or clears Unchanged: a cell that was written
      (and so lacks Unchanged) never turns into the default cell, while the
      default cell stays one. */
  lemma TranslateKeepsUnchanged(c: Cell)
    ensures Unchanged in TranslateCell(c).flags <==> Unchanged in c.flags
    ensures Unchanged !in c.flags ==> TranslateCell(c) != DefaultChar
  {
    assert Unchanged !in Flipped(c.ch);
  }
}
