/** Pixels of the circuit image and the fixed colour-to-tile table. */
module Pixels {
  import opened Wrappers
  import opened Tiles

  newtype byte = x: int | 0 <= x < 256

  /** A pixel: red, green, blue and alpha. */
  datatype Rgba = Rgba(r: byte, g: byte, b: byte, a: byte)

  /** A colour given by red, green and blue only is fully opaque. */
  function Rgb(r: byte, g: byte, b: byte): Rgba {
    Rgba(r, g, b, 255)
  }

  /** The colour table: one colour per tile kind. */
  const Colors: map<Rgba, Tile> := map[
    Rgb(255, 255, 255) := Tile.None,
    Rgb(  0, 255,   0) := Lamp,
    Rgb(255,   0,   0) := Lever,
    Rgb( 20,  20,  20) := Wire,
    Rgb( 70,  70,  70) := WireCorner,
    Rgb( 40,  40,  40) := WireJunctionT,
    Rgb( 60,  60,  60) := WireCrossover,
    Rgb(  0,   0, 110) := GateAnd,
    Rgb(  0,   0, 140) := GateNot,
    Rgb(  0,   0, 170) := GateOr,
    Rgb(  0,   0, 200) := GateXor,
    Rgb(180,   0,   0) := Clamp
  ]

  /** The colours the clamp operation paints. */
  const WireColour: Rgba := Rgb(20, 20, 20)
  const ClampColour: Rgba := Rgb(180, 0, 0)

  /** The colour the table gives each tile kind. */
  function ColourOf(t: Tile): Rgba {
    match t
    case None => Rgb(255, 255, 255)
    case Lamp => Rgb(0, 255, 0)
    case Lever => Rgb(255, 0, 0)
    case Wire => Rgb(20, 20, 20)
    case WireCorner => Rgb(70, 70, 70)
    case WireJunctionT => Rgb(40, 40, 40)
    case WireCrossover => Rgb(60, 60, 60)
    case GateAnd => Rgb(0, 0, 110)
    case GateNot => Rgb(0, 0, 140)
    case GateOr => Rgb(0, 0, 170)
    case GateXor => Rgb(0, 0, 200)
    case Clamp => Rgb(180, 0, 0)
  }

  /** The tile a colour stands for, if the table has it. */
  function Decode(c: Rgba): Option<Tile> {
    if c in Colors then Some(Colors[c]) else Option.None
  }

  /** Every kind's colour decodes back to that kind, so no two kinds share
      a colour. */
  lemma ColourOfDecodes(t: Tile)
    ensures Decode(ColourOf(t)) == Some(t)
  {
  }

  /** Every colour of the table is the colour of the kind it decodes to. */
  lemma DecodeIsColourOf(c: Rgba)
    requires c in Colors
    ensures ColourOf(Colors[c]) == c
  {
  }

  /** The table holds exactly twelve colours. */
  lemma ColourTableHasTwelveEntries()
    ensures |Colors| == 12
  {
  }

  /** The two colours the clamp operation paints decode to wire and clamp. */
  lemma ClampColoursDecode()
    ensures Decode(WireColour) == Some(Wire)
    ensures Decode(ClampColour) == Some(Clamp)
  {
  }

  /** Reading cell (x, y): outside the frame and colours outside the table
      are failures. */
  function TileAt(frame: array2<Rgba>, x: int, y: int): (r: Result<Tile>)
    reads frame
    ensures r.Ok? <==> 0 <= x < frame.Length0 && 0 <= y < frame.Length1 && frame[x, y] in Colors
    ensures r.Ok? ==> ColourOf(r.value) == frame[x, y]
    ensures !(0 <= x < frame.Length0 && 0 <= y < frame.Length1) ==> r == Err(OutOfRange)
    ensures 0 <= x < frame.Length0 && 0 <= y < frame.Length1 && frame[x, y] !in Colors ==> r == Err(UnknownColour)
  {
    if !(0 <= x < frame.Length0 && 0 <= y < frame.Length1) then Err(OutOfRange)
    else if frame[x, y] !in Colors then Err(UnknownColour)
    else Ok(Colors[frame[x, y]])
  }
}
