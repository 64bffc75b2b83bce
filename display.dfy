/** How the display loop turns a framebuffer byte into a colour. The loop
    itself is not modelled; only the byte-to-colour decode is, once as the
    source writes it and once as the pixel format intends. */
module Display {
  import opened Bits
  import opened Machine
  import Properties

  /** The visible picture is 228 by 142 pixels, one framebuffer byte each. */
  const Width := 228
  const Height := 142

  /** Channel levels indexed by a 3-bit red or green and a 2-bit blue value. */
  const RedLevels: seq<Byte> := [0, 48, 80, 112, 144, 176, 208, 255]
  const GreenLevels: seq<Byte> := [0, 48, 80, 112, 144, 176, 208, 255]
  const BlueLevels: seq<Byte> := [0, 85, 170, 255]

  datatype Rgb = Rgb(r: Byte, g: Byte, b: Byte)

  /** The visible pixels all lie inside the framebuffer. */
  lemma VisibleRegionFits()
    ensures Width * Height <= FramebufferSize
  {
  }

  /** The table indices as the source computes them. Rust's `>>` binds
      tighter than `&`, so `pixel & 0b11100000 >> 5` is `pixel & 0b111`, and
      `pixel & 0b00011100 >> 2` is the same: red and green both take the low
      three bits. */
  function ChannelIndicesAsWritten(pixel: Byte): (r: (nat, nat, nat))
    ensures r.0 < |RedLevels| && r.1 < |GreenLevels| && r.2 < |BlueLevels|
    ensures r.0 == r.1
  {
    (pixel % 8, pixel % 8, pixel % 4)
  }

  /** The colour the source draws: red and green always come out equal. */
  function ColourAsWritten(pixel: Byte): (r: Rgb)
    ensures r.r == r.g
  {
    var (i, j, k) := ChannelIndicesAsWritten(pixel);
    Rgb(RedLevels[i], GreenLevels[j], BlueLevels[k])
  }

  /** A pure red byte `0b11100000` is drawn black by the decode as written. */
  lemma PureRedAsWritten()
    ensures ColourAsWritten(0xE0) == Rgb(0, 0, 0)
  {
  }

  /** The table indices of the `RRRGGGBB` layout:
      `(pixel & 0b11100000) >> 5`, `(pixel & 0b00011100) >> 2`, `pixel & 0b11`. */
  function ChannelIndices(pixel: Byte): (r: (nat, nat, nat))
    ensures r.0 < |RedLevels| && r.1 < |GreenLevels| && r.2 < |BlueLevels|
    ensures pixel == r.0 * 32 + r.1 * 4 + r.2
  {
    (pixel / 32, pixel / 4 % 8, pixel % 4)
  }

  /** The indices select each field of the layout: packing any red, green and
      blue field values and decoding gives them back. */
  lemma ChannelIndicesOfPacked(red: nat, green: nat, blue: nat)
    requires red < 8 && green < 8 && blue < 4
    ensures ChannelIndices(red * 32 + green * 4 + blue) == (red, green, blue)
  {
  }

  /** The colour of the `RRRGGGBB` layout: each channel is the level its
      field selects. */
  function Colour(pixel: Byte): Rgb
  {
    var (i, j, k) := ChannelIndices(pixel);
    Rgb(RedLevels[i], GreenLevels[j], BlueLevels[k])
  }

  /** The corrected decode tells all 256 bytes apart, where the decode as
      written draws `0b11100000` and `0` alike. */
  lemma ColourIsInjective(p: Byte, q: Byte)
    ensures Colour(p) == Colour(q) ==> p == q
  {
    var (i, j, k) := ChannelIndices(p);
    var (i', j', k') := ChannelIndices(q);
    if Colour(p) == Colour(q) {
      assert RedLevels[i] == RedLevels[i'] && GreenLevels[j] == GreenLevels[j']
        && BlueLevels[k] == BlueLevels[k'];
      assert i == i' && j == j' && k == k';
    }
  }

  /** The program `12 80 20 00` with A = `0b11100000` (select page 0x80,
      store A at offset 0) writes data address 0x8000, the first framebuffer
      byte, and the corrected decode shows it as a red pixel at the top-left
      corner. */
  lemma TopLeftPureRed(s: State)
    requires s.Valid() && !s.halted && s.regA == 0xE0
    requires Properties.Operand(s, 0) == 0x12 && Properties.Operand(s, 1) == 0x80
    requires Properties.Operand(s, 2) == 0x20 && Properties.Operand(s, 3) == 0x00
    ensures var r := Run(s, 2);
      && r.status.Completed?
      && r.state.ram[FramebufferBase..][0] == 0xE0
      && Colour(r.state.ram[FramebufferBase..][0]) == Rgb(255, 0, 0)
  {
    Properties.SelectAndStore(s, 0x80, 0x00, 0);
    assert Concat(0x80, 0x00) == FramebufferBase;
  }
}
