/** The price tag: a UI label that shows the price string, fades in, stays on
    screen, then moves up while it fades out. The animation routine is a stage
    machine advanced by `Tick`; the canvas group and the rect transform are always
    present (the component requires the former, every UI object has the latter),
    while the text component may be missing. */
module PriceTag {
  import opened Tween
  import opened Format
  import opened PriceText

  /** Length of the fixed fade-in stage, in seconds. */
  const FadeInDuration: real := 0.5

  /** Where the animation routine is: not running, or inside one of its three
      stages with the time spent in that stage so far. */
  datatype Stage = Idle | FadingIn(elapsed: real) | Displaying(elapsed: real) | MovingUp(elapsed: real)

  class PriceTagAnimator {
    // configuration
    const hasText: bool
    const initialPosition: Vec2
    const displayDuration: real
    const moveUpDistance: real
    const fadeOutDuration: real

    // state
    var priceString: seq<char>
    var priceValue: real
    var text: seq<char>
    var anchoredPosition: Vec2
    var startPosition: Vec2
    var endPosition: Vec2
    var alpha: real
    var isAnimating: bool
    var stage: Stage
    /** Time that has passed since the running animation was started. */
    ghost var played: real

    ghost predicate Valid()
      reads this
    {
      && (isAnimating <==> !stage.Idle?)
      && 0.0 <= alpha <= 1.0
      && (hasText ==> text == priceString)
      && startPosition == initialPosition
      && endPosition == Vec2(initialPosition.x, initialPosition.y + moveUpDistance)
      && match stage
         case Idle => true
         case FadingIn(e) => 0.0 <= e <= played
         case Displaying(e) => 0.0 <= e && FadeInDuration + e <= played
         case MovingUp(e) => 0.0 <= e && FadeInDuration + displayDuration + e <= played
    }

    /** The total time of one animation run: fade-in, display and move-up. */
    function GetTotalDuration(): real
      reads this
    {
      FadeInDuration + displayDuration + fadeOutDuration
    }

    /** The amount read out of the current price string. */
    function GetPriceAmount(): (r: real)
      reads this
      ensures r >= 0.0
    {
      PriceAmount(priceString)
    }

    /** Awake: the serialized configuration, then the UI put in its initial state. */
    constructor (hasText: bool, priceString: seq<char>, initialPosition: Vec2,
                 displayDuration: real, moveUpDistance: real, fadeOutDuration: real)
      ensures Valid()
      ensures this.hasText == hasText && this.priceString == priceString
      ensures this.initialPosition == initialPosition && this.displayDuration == displayDuration
      ensures this.moveUpDistance == moveUpDistance && this.fadeOutDuration == fadeOutDuration
      ensures !isAnimating && stage == Idle && alpha == 0.0
      ensures anchoredPosition == initialPosition
    {
      this.hasText := hasText;
      this.priceString := priceString;
      this.initialPosition := initialPosition;
      this.displayDuration := displayDuration;
      this.moveUpDistance := moveUpDistance;
      this.fadeOutDuration := fadeOutDuration;
      priceValue := 99.0;
      text := priceString;
      isAnimating := false;
      stage := Idle;
      played := 0.0;
      new;
      InitializeUI();
    }

    /** Shows the price string, puts the label at its initial position, computes
        where the move-up ends, and hides the label. */
    method InitializeUI()
      modifies this
      ensures hasText ==> text == priceString
      ensures !hasText ==> text == old(text)
      ensures anchoredPosition == initialPosition && startPosition == initialPosition
      ensures endPosition == Vec2(initialPosition.x, initialPosition.y + moveUpDistance)
      ensures alpha == 0.0
      ensures priceString == old(priceString) && priceValue == old(priceValue)
      ensures isAnimating == old(isAnimating) && stage == old(stage) && played == old(played)
    {
      if hasText {
        text := priceString;
      }
      anchoredPosition := initialPosition;
      startPosition := initialPosition;
      endPosition := Vec2(initialPosition.x, initialPosition.y + moveUpDistance);
      alpha := 0.0;
    }

    /** Starts the routine unless it is already running; the routine raises the
        flag before its first stage. */
    method PlayAnimation()
      requires Valid()
      modifies this
      ensures Valid()
      ensures old(isAnimating) ==> unchanged(this)
      ensures !old(isAnimating) ==> isAnimating && stage == FadingIn(0.0) && played == 0.0
      ensures !old(isAnimating) ==>
                alpha == old(alpha) && anchoredPosition == old(anchoredPosition)
                && text == old(text) && priceString == old(priceString)
    {
      if isAnimating {
        return;
      }
      isAnimating := true;
      stage := FadingIn(0.0);
      played := 0.0;
    }

    /** One frame of the routine, `dt` seconds long. Each stage interpolates with
        its clamped progress while unfinished and snaps to its exact end value
        when it finishes, then the next stage begins; the flag falls when the
        move-up finishes, and not before the whole total duration has passed. */
    method Tick(dt: real)
      requires Valid() && dt >= 0.0
      modifies this
      ensures Valid()
      ensures priceString == old(priceString) && text == old(text) && priceValue == old(priceValue)
      ensures old(stage).Idle? ==> unchanged(this)
      ensures old(stage).FadingIn? ==>
                var e := old(stage).elapsed + dt;
                if e < FadeInDuration then stage == FadingIn(e) && alpha == Progress(e, FadeInDuration)
                else stage == Displaying(0.0) && alpha == 1.0
      ensures old(stage).Displaying? ==>
                var e := old(stage).elapsed + dt;
                stage == (if e < displayDuration then Displaying(e) else MovingUp(0.0)) && alpha == old(alpha)
      ensures old(stage).MovingUp? ==>
                var e := old(stage).elapsed + dt;
                if e < fadeOutDuration then
                  var p := Progress(e, fadeOutDuration);
                  stage == MovingUp(e)
                  && anchoredPosition == Lerp2(startPosition, endPosition, Evaluate(EaseInOut, p))
                  && alpha == Evaluate(LinearOneToZero, p)
                else stage == Idle && anchoredPosition == endPosition && alpha == 0.0
      ensures old(isAnimating) && !isAnimating ==> played >= GetTotalDuration()
    {
      match stage
      case Idle =>
      case FadingIn(e0) =>
        var e := e0 + dt;
        played := played + dt;
        if e < FadeInDuration {
          alpha := Progress(e, FadeInDuration);
          stage := FadingIn(e);
        } else {
          alpha := 1.0;
          stage := Displaying(0.0);
        }
      case Displaying(e0) =>
        var e := e0 + dt;
        played := played + dt;
        if e < displayDuration {
          stage := Displaying(e);
        } else {
          stage := MovingUp(0.0);
        }
      case MovingUp(e0) =>
        var e := e0 + dt;
        played := played + dt;
        if e < fadeOutDuration {
          var p := Progress(e, fadeOutDuration);
          anchoredPosition := Lerp2(startPosition, endPosition, Evaluate(EaseInOut, p));
          alpha := Evaluate(LinearOneToZero, p);
          stage := MovingUp(e);
        } else {
          anchoredPosition := endPosition;
          alpha := 0.0;
          stage := Idle;
          isAnimating := false;
        }
    }

    /** Stops the routine, lowers the flag and re-initializes the UI; the price
        string is kept. */
    method ResetAnimation()
      requires Valid()
      modifies this
      ensures Valid()
      ensures !isAnimating && stage == Idle
      ensures alpha == 0.0 && anchoredPosition == initialPosition
      ensures priceString == old(priceString) && text == old(text) && priceValue == old(priceValue)
    {
      stage := Idle;
      isAnimating := false;
      InitializeUI();
    }

    /** Replaces the price string verbatim and shows it. */
    method UpdatePrice(newPrice: seq<char>)
      requires Valid()
      modifies this
      ensures Valid()
      ensures priceString == newPrice
      ensures text == if hasText then newPrice else old(text)
      ensures GetPriceAmount() == PriceAmount(newPrice)
      ensures priceValue == old(priceValue) && alpha == old(alpha) && stage == old(stage)
      ensures isAnimating == old(isAnimating) && anchoredPosition == old(anchoredPosition)
    {
      priceString := newPrice;
      if hasText {
        text := newPrice;
      }
    }

    /** Stores a price and prints it as the yen sign followed by the amount with
        two decimals; reading the amount back gives the price rounded to cents. */
    method SetPrice(price: real)
      requires Valid()
      modifies this
      ensures Valid()
      ensures priceValue == price
      ensures priceString == [Yen] + F2(price)
      ensures text == if hasText then priceString else old(text)
      ensures GetPriceAmount() == RoundHalfAway(Abs(price) * 100.0) as real / 100.0
      ensures price >= 0.0 ==> -0.005 < GetPriceAmount() - price <= 0.005
      ensures alpha == old(alpha) && stage == old(stage) && isAnimating == old(isAnimating)
      ensures anchoredPosition == old(anchoredPosition)
    {
      priceValue := price;
      priceString := PriceString(price);
      if hasText {
        text := priceString;
      }
      PriceRoundTrip(price);
    }
  }
}
