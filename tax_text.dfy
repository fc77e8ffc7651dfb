/** The road-tax text: a UI label that, given a tax amount, shows how many
    metres of road the amount maintains (two metres per unit), then runs a
    four-stage sequence: wait, fade in, stay, fade out. The canvas group is
    always present (it is added when missing); the text component may be
    missing. */
module TaxText {
  import opened Tween
  import opened Format

  /** Metres of road maintained per unit of tax. */
  const MetresPerUnit: real := 2.0

  /** The road length the label announces for an amount. */
  function RoadLength(amount: real): (r: real)
    ensures amount >= 0.0 ==> r >= amount
    ensures amount <= 0.0 ==> r <= amount
    ensures r / MetresPerUnit == amount
  {
    amount * MetresPerUnit
  }

  /** The label's two lines: the amount with no decimals followed by "元税款",
      then "=", the road length with no decimals and "米的道路养护". */
  function TaxLabel(amount: real): seq<char>
  {
    F0(amount) + "元税款\n=" + F0(RoadLength(amount)) + "米的道路养护"
  }

  /** For a whole amount n the label reads "n元税款", a line break, and
      "=2n米的道路养护". */
  lemma TaxLabelOfWholeAmount(n: nat)
    ensures TaxLabel(n as real) == NatToString(n) + "元税款\n=" + NatToString(2 * n) + "米的道路养护"
  {
    F0OfInteger(n);
    assert RoadLength(n as real) == (2 * n) as real;
    F0OfInteger(2 * n);
  }

  /** For a whole amount the two numbers on the label agree: reading the digits
      of the first line and of the second line back gives n and 2n. */
  lemma TaxLabelNumbersAgree(n: nat)
    ensures var shown := TaxLabel(n as real);
            var first := NatToString(n);
            var second := NatToString(2 * n);
            && shown[..|first|] == first
            && shown[|first| + 5..|first| + 5 + |second|] == second
            && DigitsValue(second) == 2 * DigitsValue(first)
  {
    TaxLabelOfWholeAmount(n);
    var first := NatToString(n);
    var second := NatToString(2 * n);
    Pieces(first, "元税款\n=", second, "米的道路养护");
    NatToStringValue(n);
    NatToStringValue(2 * n);
  }

  /** Where the first and third of four joined pieces sit. */
  lemma Pieces(a: seq<char>, b: seq<char>, c: seq<char>, d: seq<char>)
    ensures (a + b + c + d)[..|a|] == a
    ensures (a + b + c + d)[|a| + |b|..|a| + |b| + |c|] == c
  {
  }

  /** Where the text sequence is: not running, or inside one of its four stages
      with the time spent in that stage so far. */
  datatype Stage =
    | Idle
    | Delaying(elapsed: real)
    | FadingIn(elapsed: real)
    | Showing(elapsed: real)
    | FadingOut(elapsed: real)

  class RoadTaxTextAnimator {
    // configuration
    const hasText: bool
    const displayDelay: real
    const fadeInDuration: real
    const displayDuration: real
    const fadeOutDuration: real

    // state
    var taxAmount: real
    var text: seq<char>
    var alpha: real
    var stage: Stage
    /** Time that has passed since the running sequence was started. */
    ghost var played: real

    ghost predicate Valid()
      reads this
    {
      && 0.0 <= alpha <= 1.0
      && match stage
         case Idle => true
         case Delaying(e) => 0.0 <= e <= played
         case FadingIn(e) => 0.0 <= e && displayDelay + e <= played
         case Showing(e) => 0.0 <= e && displayDelay + fadeInDuration + e <= played
         case FadingOut(e) => 0.0 <= e && displayDelay + fadeInDuration + displayDuration + e <= played
    }

    /** The time one run of the sequence takes: delay, fade-in, stay and
        fade-out. */
    function GetTotalDuration(): real
      reads this
    {
      displayDelay + fadeInDuration + displayDuration + fadeOutDuration
    }

    /** Awake: the label starts hidden, with no amount. */
    constructor (hasText: bool, text: seq<char>, displayDelay: real, fadeInDuration: real,
                 displayDuration: real, fadeOutDuration: real)
      ensures Valid()
      ensures this.hasText == hasText && this.text == text
      ensures this.displayDelay == displayDelay && this.fadeInDuration == fadeInDuration
      ensures this.displayDuration == displayDuration && this.fadeOutDuration == fadeOutDuration
      ensures alpha == 0.0 && taxAmount == 0.0 && stage == Idle
    {
      this.hasText := hasText;
      this.text := text;
      this.displayDelay := displayDelay;
      this.fadeInDuration := fadeInDuration;
      this.displayDuration := displayDuration;
      this.fadeOutDuration := fadeOutDuration;
      taxAmount := 0.0;
      alpha := 0.0;
      stage := Idle;
      played := 0.0;
    }

    /** Stores the amount, writes the label when there is a text component, and
        starts the sequence from its delay. */
    method ShowTaxText(amount: real)
      requires Valid()
      modifies this
      ensures Valid()
      ensures taxAmount == amount
      ensures text == if hasText then TaxLabel(amount) else old(text)
      ensures stage == Delaying(0.0) && played == 0.0 && alpha == old(alpha)
    {
      taxAmount := amount;
      if hasText {
        text := TaxLabel(amount);
      }
      stage := Delaying(0.0);
      played := 0.0;
    }

    /** One frame of the sequence, `dt` seconds long. A wait ends once its time
        has passed; a fade sets alpha to its clamped progress (rising for the
        fade-in, falling for the fade-out) while unfinished and snaps to 1 or 0
        when it finishes; the sequence ends after the fade-out, and not before
        its total duration has passed. */
    method Tick(dt: real)
      requires Valid() && dt >= 0.0
      modifies this
      ensures Valid()
      ensures taxAmount == old(taxAmount) && text == old(text)
      ensures old(stage).Idle? ==> unchanged(this)
      ensures old(stage).Delaying? ==>
                var e := old(stage).elapsed + dt;
                stage == (if e < displayDelay then Delaying(e) else FadingIn(0.0)) && alpha == old(alpha)
      ensures old(stage).FadingIn? ==>
                var e := old(stage).elapsed + dt;
                if e < fadeInDuration then stage == FadingIn(e) && alpha == Progress(e, fadeInDuration)
                else stage == Showing(0.0) && alpha == 1.0
      ensures old(stage).Showing? ==>
                var e := old(stage).elapsed + dt;
                stage == (if e < displayDuration then Showing(e) else FadingOut(0.0)) && alpha == old(alpha)
      ensures old(stage).FadingOut? ==>
                var e := old(stage).elapsed + dt;
                if e < fadeOutDuration then stage == FadingOut(e) && alpha == 1.0 - Progress(e, fadeOutDuration)
                else stage == Idle && alpha == 0.0
      ensures !old(stage).Idle? && stage.Idle? ==> played >= GetTotalDuration()
    {
      match stage
      case Idle =>
      case Delaying(e0) =>
        var e := e0 + dt;
        played := played + dt;
        stage := if e < displayDelay then Delaying(e) else FadingIn(0.0);
      case FadingIn(e0) =>
        var e := e0 + dt;
        played := played + dt;
        if e < fadeInDuration {
          alpha := Progress(e, fadeInDuration);
          stage := FadingIn(e);
        } else {
          alpha := 1.0;
          stage := Showing(0.0);
        }
      case Showing(e0) =>
        var e := e0 + dt;
        played := played + dt;
        stage := if e < displayDuration then Showing(e) else FadingOut(0.0);
      case FadingOut(e0) =>
        var e := e0 + dt;
        played := played + dt;
        if e < fadeOutDuration {
          alpha := 1.0 - Progress(e, fadeOutDuration);
          stage := FadingOut(e);
        } else {
          alpha := 0.0;
          stage := Idle;
        }
    }

    /** Stops the sequence, hides the label and empties its text; the amount is
        kept. */
    method ResetAnimation()
      requires Valid()
      modifies this
      ensures Valid()
      ensures stage == Idle && alpha == 0.0
      ensures text == if hasText then "" else old(text)
      ensures taxAmount == old(taxAmount)
    {
      stage := Idle;
      alpha := 0.0;
      if hasText {
        text := "";
      }
    }
  }
}
