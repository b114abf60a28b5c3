/** The product page's quantity stepper, which keeps the chosen quantity between one and
    the stock, and its thumbnail carousel, which moves round the product's images. */
module ProductPage {
  import opened Base

  /** The fields of the displayed product the handlers read. */
  datatype PageProduct = PageProduct(id: string, stock: int, images: seq<string>)

  // ---------------------------------------------------------------------------
  // quantity stepper
  // ---------------------------------------------------------------------------

  /** `handleAddQuantity`: nothing without a product or with no stock; otherwise, once the
      cart call resolves, one more, but never more than the stock. */
  function HandleAddQuantity(product: Option<PageProduct>, quantity: int, api: Outcome): (r: int)
    ensures product.None? || product.value.stock == 0 || api == Rejected ==> r == quantity
    ensures product.Some? && product.value.stock != 0 && api == Resolved ==>
      && r <= product.value.stock
      && (quantity + 1 <= product.value.stock ==> r == quantity + 1)
      && (quantity + 1 > product.value.stock ==> r == product.value.stock)
  {
    match product
    case None => quantity
    case Some(p) =>
      if p.stock == 0 then quantity
      else match api
        case Rejected => quantity
        case Resolved => if p.stock < quantity + 1 then p.stock else quantity + 1
  }

  /** `handleSubtractQuantity`: nothing at a quantity of one or less; otherwise, once the
      cart call resolves, one fewer, but never less than one. Without a product the call
      is never made: reading the product's id throws, the handler catches it, and the
      quantity stays. */
  function HandleSubtractQuantity(product: Option<PageProduct>, quantity: int, api: Outcome): (r: int)
    ensures quantity <= 1 || product.None? || api == Rejected ==> r == quantity
    ensures quantity > 1 && product.Some? && api == Resolved ==> r == quantity - 1 && r >= 1
  {
    if quantity <= 1 then quantity
    else match product
      case None => quantity
      case Some(_) =>
        match api
        case Rejected => quantity
        case Resolved => if 1 < quantity - 1 then quantity - 1 else 1
  }

  datatype Step = Plus(api: Outcome) | Minus(api: Outcome)

  function ApplyStep(product: Option<PageProduct>, quantity: int, step: Step): int
  {
    match step
    case Plus(api) => HandleAddQuantity(product, quantity, api)
    case Minus(api) => HandleSubtractQuantity(product, quantity, api)
  }

  function ApplySteps(product: Option<PageProduct>, quantity: int, steps: seq<Step>): int
    decreases |steps|
  {
    if |steps| == 0 then quantity
    else ApplySteps(product, ApplyStep(product, quantity, steps[0]), steps[1..])
  }

  /** Starting anywhere from one to the stock (the page starts at one), any sequence of
      presses, whatever the cart calls do, keeps the quantity from one to the stock. */
  lemma {:induction false} StepsStayInStock(p: PageProduct, quantity: int, steps: seq<Step>)
    requires 1 <= quantity <= p.stock
    ensures 1 <= ApplySteps(Some(p), quantity, steps) <= p.stock
    decreases |steps|
  {
    if |steps| > 0 {
      StepsStayInStock(p, ApplyStep(Some(p), quantity, steps[0]), steps[1..]);
    }
  }

  /** A successful "+" followed by a successful "−" returns to the start when there was
      room for one more. */
  lemma PlusThenMinus(p: PageProduct, quantity: int)
    requires 1 <= quantity < p.stock
    ensures HandleSubtractQuantity(Some(p), HandleAddQuantity(Some(p), quantity, Resolved), Resolved) == quantity
  {
  }

  // ---------------------------------------------------------------------------
  // thumbnail carousel
  // ---------------------------------------------------------------------------

  /** The selected thumbnail's position and the main image; `None` is `undefined`, which is
      what reading past the end of the thumbnail list gives. */
  datatype Carousel = Carousel(index: int, image: Option<string>)

  const InitialCarousel: Carousel := Carousel(0, Some(""))

  /** `thumbnails[i]`. */
  function At(thumbnails: seq<string>, i: int): (r: Option<string>)
    ensures r.Some? <==> 0 <= i < |thumbnails|
    ensures r.Some? ==> r.value == thumbnails[i]
  {
    if 0 <= i < |thumbnails| then Some(thumbnails[i]) else None
  }

  /** JavaScript's `a % n`: the remainder takes the sign of `a`, and a zero divisor gives
      `NaN`, here `None`. */
  function JsRem(a: int, n: nat): (r: Option<int>)
    ensures n == 0 <==> r.None?
    ensures n > 0 && a >= 0 ==> r == Some(a % n)
    ensures n > 0 && a < 0 ==> r.value <= 0 && r.value + n > 0
  {
    if n == 0 then None
    else if a >= 0 then Some(a % n)
    else Some(-((-a) % n))
  }

  function ImageAt(thumbnails: seq<string>, position: Option<int>): Option<string>
  {
    match position
    case None => None
    case Some(i) => At(thumbnails, i)
  }

  /** `handleThumbnailClick(k)`. */
  function Click(thumbnails: seq<string>, k: int): (r: Carousel)
    ensures r.index == k
    ensures 0 <= k < |thumbnails| ==> r.image == Some(thumbnails[k])
  {
    Carousel(k, At(thumbnails, k))
  }

  /** `handlePrevThumbnail`. */
  function Prev(c: Carousel, thumbnails: seq<string>): (r: Carousel)
    ensures |thumbnails| == 0 ==> r.image.None?
  {
    var n := |thumbnails|;
    Carousel(
      if c.index > 0 then c.index - 1 else n - 1,
      ImageAt(thumbnails, JsRem(c.index - 1 + n, n)))
  }

  /** `handleNextThumbnail`. */
  function Next(c: Carousel, thumbnails: seq<string>): (r: Carousel)
    ensures |thumbnails| == 0 ==> r.image.None?
  {
    var n := |thumbnails|;
    Carousel(
      if c.index < n - 1 then c.index + 1 else 0,
      ImageAt(thumbnails, JsRem(c.index + 1, n)))
  }

  /** The selected position is a thumbnail and the main image is that thumbnail. */
  predicate Agrees(c: Carousel, thumbnails: seq<string>)
  {
    0 <= c.index < |thumbnails| && c.image == Some(thumbnails[c.index])
  }

  /** From any position on a non-empty list, the next button moves to the following
      position, wrapping at the end, and shows the image at that position. */
  lemma NextMovesForward(c: Carousel, thumbnails: seq<string>)
    requires 0 <= c.index < |thumbnails|
    ensures Next(c, thumbnails).index == (c.index + 1) % |thumbnails|
    ensures Agrees(Next(c, thumbnails), thumbnails)
  {
    var n := |thumbnails|;
    if c.index + 1 < n {
      ModOfSmall(c.index + 1, n);
    } else {
      ModOfSmall(0, n);
      ModShift(0, n);
    }
  }

  /** From any position on a non-empty list, the previous button moves to the preceding
      position, wrapping at the start, and shows the image at that position. */
  lemma PrevMovesBack(c: Carousel, thumbnails: seq<string>)
    requires 0 <= c.index < |thumbnails|
    ensures Prev(c, thumbnails).index == (c.index - 1 + |thumbnails|) % |thumbnails|
    ensures Agrees(Prev(c, thumbnails), thumbnails)
  {
    var n := |thumbnails|;
    if c.index > 0 {
      ModShift(c.index - 1, n);
    } else {
      ModOfSmall(n - 1, n);
    }
  }

  lemma ModOfSmall(x: int, n: int)
    requires 0 <= x < n
    ensures x % n == x
  {
  }

  lemma ModShift(x: int, n: int)
    requires 0 <= x < n
    ensures (x + n) % n == x
  {
    assert (x + n) - n == x;
  }

  /** Next then previous returns to the starting thumbnail and shows its image. */
  lemma NextThenPrev(c: Carousel, thumbnails: seq<string>)
    requires 0 <= c.index < |thumbnails|
    ensures Prev(Next(c, thumbnails), thumbnails).index == c.index
    ensures Agrees(Prev(Next(c, thumbnails), thumbnails), thumbnails)
  {
    NextMovesForward(c, thumbnails);
    PrevMovesBack(Next(c, thumbnails), thumbnails);
  }

  /** Previous then next returns to the starting thumbnail too. */
  lemma PrevThenNext(c: Carousel, thumbnails: seq<string>)
    requires 0 <= c.index < |thumbnails|
    ensures Next(Prev(c, thumbnails), thumbnails).index == c.index
  {
    PrevMovesBack(c, thumbnails);
    NextMovesForward(Prev(c, thumbnails), thumbnails);
  }
}
