/**
 * Colours of the GPU abstraction layer and its table of stock colours.
 */
module GralColor {
  /** An RGBA colour with float components. */
  datatype Color = Color(r: real, g: real, b: real, a: real)

  /** The stock-colour enumeration, by its C enumerator values. */
  const StockWhite: int := 0
  const StockBlack: int := 1
  const StockZero: int := 2

  predicate IsStock(stock: int)
  {
    stock == StockWhite || stock == StockBlack || stock == StockZero
  }

  const White: Color := Color(1.0, 1.0, 1.0, 1.0)
  const Black: Color := Color(0.0, 0.0, 0.0, 1.0)
  const Zero: Color := Color(0.0, 0.0, 0.0, 0.0)
  /** Returned for a value outside the enumeration, to make the error visible. */
  const Magenta: Color := Color(1.0, 0.0, 1.0, 1.0)

  /**
   * The colour of a stock value. The enumerators map to white, black and
   * transparent black; any other value reaches the not-reached assertion,
   * whose release-build fallback is magenta.
   */
  function StockColor(stock: int): (c: Color)
    ensures stock == StockWhite ==> c == Color(1.0, 1.0, 1.0, 1.0)
    ensures stock == StockBlack ==> c == Color(0.0, 0.0, 0.0, 1.0)
    ensures stock == StockZero ==> c == Color(0.0, 0.0, 0.0, 0.0)
    ensures !IsStock(stock) ==> c == Color(1.0, 0.0, 1.0, 1.0)
  {
    if stock == StockWhite then White
    else if stock == StockBlack then Black
    else if stock == StockZero then Zero
    else Magenta
  }

  /**
   * Every stock colour is a grey (equal r, g, b) and is opaque except
   * ZERO; so the magenta fallback is returned exactly for values outside
   * the enumeration.
   */
  lemma StockColorsAreGreys(stock: int)
    ensures IsStock(stock) <==> StockColor(stock) != Magenta
    ensures IsStock(stock) ==> StockColor(stock).r == StockColor(stock).g == StockColor(stock).b
    ensures IsStock(stock) ==> (StockColor(stock).a == 1.0 <==> stock != StockZero)
  {
  }
}
