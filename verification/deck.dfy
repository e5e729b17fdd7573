/** The slide deck (app/deck/page.tsx): a registry of fourteen slides, an
    index moved by keys and click zones and clamped to the registry, the
    progress bar width and the "NN / NN" counter it derives, the deck's
    Badge (which adds a muted `gray` flag) and the quality drill-down
    slide's severity badges. */
module Deck {
  import opened Palette
  import Scorecard

  // ---------------------------------------------------------------------
  // Slide registry
  // ---------------------------------------------------------------------

  /** The slide components, by their number. */
  const Slides: seq<nat> := [1, 2, 3, 4, 5, 6, 7, 8, 9, 10, 11, 12, 13, 14]

  const Total: nat := |Slides|

  const Last: int := Total - 1

  predicate InRange(i: int)
  {
    0 <= i < Total
  }

  // ---------------------------------------------------------------------
  // Navigation
  // ---------------------------------------------------------------------

  function Min(a: int, b: int): int { if a <= b then a else b }
  function Max(a: int, b: int): int { if a >= b then a else b }

  /** `Math.min(i + 1, TOTAL - 1)`. */
  function Next(i: int): (j: int)
    ensures i < Last ==> j == i + 1
    ensures i >= Last ==> j == Last
  {
    Min(i + 1, Last)
  }

  /** `Math.max(i - 1, 0)`. */
  function Prev(i: int): (j: int)
    ensures i > 0 ==> j == i - 1
    ensures i <= 0 ==> j == 0
  {
    Max(i - 1, 0)
  }

  /** Next and previous keep the index on a slide, and they are mutual
      inverses away from the end they move towards. */
  lemma NavigationStaysInRange(i: int)
    requires InRange(i)
    ensures InRange(Next(i)) && InRange(Prev(i))
    ensures i < Last ==> Prev(Next(i)) == i
    ensures i > 0 ==> Next(Prev(i)) == i
  {
  }

  /** Next on the last slide and previous on the first change nothing, and
      only there. */
  lemma EdgesAreFixedPoints(i: int)
    requires InRange(i)
    ensures Next(i) == i <==> i == Last
    ensures Prev(i) == i <==> i == 0
  {
  }

  datatype DeckInput =
    | Key(key: string)    // a window key press
    | ClickPrevZone       // the invisible left 8% strip
    | ClickNextZone       // the invisible right 8% strip

  /** What one input does: a new index, and whether it leaves for the
      dashboard route (Escape). */
  datatype Reaction = Reaction(index: int, goHome: bool)

  predicate IsForwardKey(key: string)
  {
    key == "ArrowRight" || key == "ArrowDown" || key == " "
  }

  predicate IsBackKey(key: string)
  {
    key == "ArrowLeft" || key == "ArrowUp"
  }

  /** The key handler and the two click zones. Unlisted keys do nothing. */
  function OnInput(i: int, input: DeckInput): (r: Reaction)
    ensures input.ClickNextZone? || (input.Key? && IsForwardKey(input.key)) ==> r == Reaction(Next(i), false)
    ensures input.ClickPrevZone? || (input.Key? && IsBackKey(input.key)) ==> r == Reaction(Prev(i), false)
    ensures r.goHome <==> input == Key("Escape")
    ensures input.Key? && !IsForwardKey(input.key) && !IsBackKey(input.key) ==> r.index == i
  {
    match input
    case ClickPrevZone => Reaction(Prev(i), false)
    case ClickNextZone => Reaction(Next(i), false)
    case Key(key) =>
      if IsForwardKey(key) then Reaction(Next(i), false)
      else if IsBackKey(key) then Reaction(Prev(i), false)
      else Reaction(i, key == "Escape")
  }

  /** The index after a run of inputs (a route change unmounts the deck,
      so the run stops there). From any slide, no run leaves the registry,
      and each input moves the index by at most one slide. */
  function Run(i: int, inputs: seq<DeckInput>): (j: int)
    ensures InRange(i) ==> InRange(j)
    ensures InRange(i) ==> i - |inputs| <= j <= i + |inputs|
    decreases |inputs|
  {
    if |inputs| == 0 then i
    else
      var r := OnInput(i, inputs[0]);
      if r.goHome then r.index else Run(r.index, inputs[1..])
  }

  function Repeat(input: DeckInput, n: nat): (s: seq<DeckInput>)
    ensures |s| == n && forall k :: 0 <= k < n ==> s[k] == input
  {
    if n == 0 then [] else [input] + Repeat(input, n - 1)
  }

  /** Clicking the right zone n times from slide i reaches slide
      min(i + n, last): every slide is reachable, and the index sticks at
      the end. */
  lemma {:induction false} ForwardClicks(i: int, n: nat)
    requires InRange(i)
    ensures Run(i, Repeat(ClickNextZone, n)) == Min(i + n, Last)
    decreases n
  {
    if n > 0 {
      var s := Repeat(ClickNextZone, n);
      assert s[1..] == Repeat(ClickNextZone, n - 1);
      ForwardClicks(Next(i), n - 1);
    }
  }

  /** Pressing ArrowLeft n times from slide i reaches slide max(i - n, 0). */
  lemma {:induction false} BackKeys(i: int, n: nat)
    requires InRange(i)
    ensures Run(i, Repeat(Key("ArrowLeft"), n)) == Max(i - n, 0)
    decreases n
  {
    if n > 0 {
      var s := Repeat(Key("ArrowLeft"), n);
      assert s[1..] == Repeat(Key("ArrowLeft"), n - 1);
      BackKeys(Prev(i), n - 1);
    }
  }

  // ---------------------------------------------------------------------
  // Progress bar and counter
  // ---------------------------------------------------------------------

  /** `((index + 1) / TOTAL) * 100`, the progress bar's width in percent:
      on a slide it is never empty nor overfull, and it is full exactly on
      the last slide. */
  function Progress(i: int): (p: real)
    ensures InRange(i) ==> 0.0 < p <= 100.0
    ensures p == 100.0 <==> i == Last
  {
    ((i + 1) as real / Total as real) * 100.0
  }

  /** The bar grows with every step forward. */
  lemma ProgressGrows(i: int, j: int)
    ensures i < j ==> Progress(i) < Progress(j)
  {
  }

  function DigitChar(d: int): char
    requires 0 <= d < 10
  {
    "0123456789"[d]
  }

  predicate IsDigit(c: char)
  {
    '0' <= c <= '9'
  }

  predicate AllDigits(s: string)
  {
    forall k :: 0 <= k < |s| ==> IsDigit(s[k])
  }

  /** `String(n)` for a non-negative integer: its decimal digits, no
      leading zero. */
  function Decimal(n: nat): (s: string)
    ensures |s| >= 1 && AllDigits(s)
    ensures n < 10 <==> |s| == 1
    ensures n < 100 ==> |s| <= 2
    ensures |s| > 1 ==> s[0] != '0'
    decreases n
  {
    if n < 10 then [DigitChar(n)] else Decimal(n / 10) + [DigitChar(n % 10)]
  }

  /** Reads a run of decimal digits back as a number. */
  function ParseDecimal(s: string): nat
    requires AllDigits(s)
    decreases |s|
  {
    if |s| == 0 then 0
    else 10 * ParseDecimal(s[..|s| - 1]) + ((s[|s| - 1] as int) - ('0' as int))
  }

  lemma DigitCharValue(d: int)
    requires 0 <= d < 10
    ensures (DigitChar(d) as int) - ('0' as int) == d
  {
  }

  lemma {:induction false} DecimalRoundTrip(n: nat)
    ensures ParseDecimal(Decimal(n)) == n
    decreases n
  {
    var s := Decimal(n);
    if n < 10 {
      DigitCharValue(n);
      assert s[..0] == [];
    } else {
      DecimalRoundTrip(n / 10);
      DigitCharValue(n % 10);
      assert s[..|s| - 1] == Decimal(n / 10);
    }
  }

  /** `s.padStart(width, fill)` with a one-character fill string. */
  function PadStart(s: string, width: nat, fill: char): (r: string)
    ensures |r| == if |s| >= width then |s| else width
    ensures r[|r| - |s|..] == s
    ensures forall k :: 0 <= k < |r| - |s| ==> r[k] == fill
  {
    if |s| >= width then s else seq(width - |s|, _ => fill) + s
  }

  /** Leading zeros do not change the value read back. */
  lemma {:induction false} LeadingZeros(z: nat, s: string)
    requires AllDigits(s)
    ensures AllDigits(seq(z, _ => '0') + s)
    ensures ParseDecimal(seq(z, _ => '0') + s) == ParseDecimal(s)
    decreases |s|
  {
    var t := seq(z, _ => '0') + s;
    if |s| == 0 {
      assert t == seq(z, _ => '0');
      AllZeros(z);
    } else {
      assert t[..|t| - 1] == seq(z, _ => '0') + s[..|s| - 1];
      LeadingZeros(z, s[..|s| - 1]);
    }
  }

  lemma {:induction false} AllZeros(z: nat)
    ensures ParseDecimal(seq(z, _ => '0')) == 0
    decreases z
  {
    if z > 0 {
      assert seq(z, _ => '0')[..z - 1] == seq(z - 1, _ => '0');
      AllZeros(z - 1);
    }
  }

  /** `String(n).padStart(2, "0")`: at least two digits that read back as
      the number, exactly two up to 99. */
  function TwoDigits(n: nat): (s: string)
    ensures |s| >= 2 && AllDigits(s) && ParseDecimal(s) == n
    ensures n < 100 ==> |s| == 2
  {
    PaddedRoundTrip(n);
    PadStart(Decimal(n), 2, '0')
  }

  lemma PaddedRoundTrip(n: nat)
    ensures var s := PadStart(Decimal(n), 2, '0');
      |s| >= 2 && AllDigits(s) && ParseDecimal(s) == n && (n < 100 ==> |s| == 2)
  {
    var d := Decimal(n);
    var z := if |d| < 2 then 2 - |d| else 0;
    DecimalRoundTrip(n);
    LeadingZeros(z, d);
    assert PadStart(d, 2, '0') == seq(z, _ => '0') + d;
  }

  /** The slide counter in the bottom-right corner, "01 / 14": the same
      width, seven characters, on every slide. */
  function Counter(i: nat): (s: string)
    ensures InRange(i) ==> |s| == 7
  {
    TwoDigits(i + 1) + " / " + TwoDigits(Total)
  }

  /** On every slide the counter reads as the 1-based slide number in two
      digits, then " / 14". */
  lemma CounterShape(i: nat)
    requires InRange(i)
    ensures AllDigits(Counter(i)[..2]) && ParseDecimal(Counter(i)[..2]) == i + 1
    ensures Counter(i)[2..] == " / 14"
  {
    var n := TwoDigits(i + 1);
    TotalIsFourteen(n);
    SplitAfter(n);
  }

  /** The total renders as "14". */
  lemma TotalIsFourteen(n: string)
    ensures n + " / " + TwoDigits(Total) == n + " / 14"
  {
    assert Decimal(14) == "14";
    assert TwoDigits(Total) == "14";
  }

  lemma SplitAfter(n: string)
    ensures var s := n + " / 14"; s[..|n|] == n && s[|n|..] == " / 14"
  {
  }

  // ---------------------------------------------------------------------
  // Badge
  // ---------------------------------------------------------------------

  /** The deck's `Badge`: the scorecard's four overrides followed by a
      muted `gray` one, so gray beats every colour. */
  function Badge(accent: bool, green: bool, amber: bool, red: bool, gray: bool): (t: Tone)
    ensures gray ==> t == Gray
    ensures !gray && red ==> t == Red
    ensures !gray && !red && amber ==> t == Amber
    ensures !gray && !red && !amber && green ==> t == Green
    ensures !gray && !red && !amber && !green && accent ==> t == Accent
    ensures !gray && !red && !amber && !green && !accent ==> t == Neutral
  {
    var fs := [(accent, Accent), (green, Green), (amber, Amber), (red, Red), (gray, Gray)];
    LaterFlagWins(fs[..4], fs[4..], Neutral);
    assert fs[..4] + fs[4..] == fs;
    assert !gray && red ==> LastSetAt(fs, 3);
    assert !gray && !red && amber ==> LastSetAt(fs, 2);
    assert !gray && !red && !amber && green ==> LastSetAt(fs, 1);
    assert !gray && !red && !amber && !green && accent ==> LastSetAt(fs, 0);
    Paint(fs, Neutral)
  }

  /** With `gray` unset the two pages' Badges agree on every flag set. */
  lemma BadgesAgree(accent: bool, green: bool, amber: bool, red: bool)
    ensures Badge(accent, green, amber, red, false) == Scorecard.Badge(accent, green, amber, red)
  {
  }

  // ---------------------------------------------------------------------
  // Quality drill-down slide
  // ---------------------------------------------------------------------

  datatype Issue = Issue(id: string, field: string, severity: string, time: string, owner: string)

  const Issues: seq<Issue> := [
    Issue("W-001", "carrier_id", "WARNING", "34 min ago", "Sarah Kim"),
    Issue("W-002", "shipment_date", "WARNING", "34 min ago", "Rajesh Patel"),
    Issue("W-003", "carrier_id", "WARNING", "2h ago", "Sarah Kim"),
    Issue("W-004", "warehouse_code", "INFO", "6h ago", "Maria Chen")
  ]

  /** A WARNING row gets an amber badge, any other severity a gray one. */
  function IssueBadge(severity: string): (t: Tone)
    ensures t == Amber <==> severity == "WARNING"
    ensures t == Gray <==> severity != "WARNING"
  {
    if severity == "WARNING" then Badge(false, false, true, false, false)
    else Badge(false, false, false, false, true)
  }

  /** The slide's "4 Issues Detected" matches its table: three amber
      warnings and one gray informational row. */
  lemma IssueTableMatchesHeading()
    ensures |Issues| == 4
    ensures forall k :: 0 <= k < 3 ==> IssueBadge(Issues[k].severity) == Amber
    ensures IssueBadge(Issues[3].severity) == Gray
  {
  }
}
