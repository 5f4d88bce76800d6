/**
  Value types shared by the grabbers, the grab manager and the Lightpack device:
  the 32-bit QRgb colour word, rectangles, capture regions and grab results.
 */
module Types {

  datatype Option<T> = None | Some(value: T)

  /** An unsigned 8-bit quantity held as an integer. */
  type Byte = x: int | 0 <= x < 256

  /**
    A QRgb word 0xAARRGGBB, kept as its four bytes. Two words are equal exactly
    when their four bytes are, so equality of Rgb values is equality of QRgb words.
   */
  datatype Rgb = Rgb(alpha: Byte, red: Byte, green: Byte, blue: Byte)

  /** qRgb(r, g, b): opaque alpha and each channel masked with 0xff. */
  function MakeRgb(r: int, g: int, b: int): (c: Rgb)
    ensures c.alpha == 0xFF
    ensures 0 <= r < 256 ==> c.red == r
    ensures 0 <= g < 256 ==> c.green == g
    ensures 0 <= b < 256 ==> c.blue == b
  {
    Rgb(0xFF, r % 256, g % 256, b % 256)
  }

  /** The QRgb literal 0: black with a zero alpha byte, which is not qRgb(0, 0, 0). */
  const Zero: Rgb := Rgb(0, 0, 0, 0)

  /** Black in the sense of "no light": all three colour channels are zero, whatever the alpha byte. */
  predicate IsBlack(c: Rgb) {
    c.red == 0 && c.green == 0 && c.blue == 0
  }

  /** The 32-bit word a colour stands for. */
  function ToWord(c: Rgb): (w: nat)
    ensures w < 0x1_0000_0000
  {
    ((c.alpha * 256 + c.red) * 256 + c.green) * 256 + c.blue
  }

  /** qAlpha, qRed, qGreen, qBlue of a 32-bit word. */
  function FromWord(w: nat): (c: Rgb)
    requires w < 0x1_0000_0000
  {
    Rgb(w / 0x100_0000, (w / 0x1_0000) % 256, (w / 0x100) % 256, w % 256)
  }

  /** The four-byte view loses nothing: it is exactly the QRgb word. */
  lemma WordRoundTrip(c: Rgb)
    ensures FromWord(ToWord(c)) == c
  {
    var w := ToWord(c);
    assert w == c.alpha * 0x100_0000 + c.red * 0x1_0000 + c.green * 0x100 + c.blue;
    assert w / 0x100 == c.alpha * 0x1_0000 + c.red * 0x100 + c.green;
    assert w / 0x1_0000 == c.alpha * 0x100 + c.red;
    assert w / 0x100_0000 == c.alpha;
  }

  /** A rectangle in the QRect sense: top-left corner, width and height. */
  datatype Rect = Rect(x: int, y: int, width: int, height: int)

  /** A capture region (one LED widget): its geometry and whether its area is enabled. */
  datatype Region = Region(rect: Rect, enabled: bool)

  /** The outcome a grabber reports for one grab attempt. */
  datatype GrabResult = GrabResultOk | GrabResultError

  function Max0(n: int): nat { if n < 0 then 0 else n }

  function Min(a: int, b: int): int { if a < b then a else b }
}
