/** The AI-readiness scorecard (app/scorecard/page.tsx): six domains and
    four blockers as constant tables, the colour bands for scores and
    severities, the Badge override order, the domain card border rules,
    the blocker-hover pair of state slots and the catalog overlay flag. */
module Scorecard {
  import opened Wrappers
  import opened Palette

  // ---------------------------------------------------------------------
  // Static data
  // ---------------------------------------------------------------------

  datatype DomainStatus = Ready | Attention | Blocked

  datatype Severity = Critical | High | Medium

  /** `name` holds the source's `label` field (`label` is a Dafny keyword). */
  datatype SubMetric = SubMetric(name: string, value: int)

  datatype Domain = Domain(id: int, num: string, name: string, status: DomainStatus, score: int,
                           subMetrics: seq<SubMetric>, dataProducts: nat, consumers: nat)

  datatype Blocker = Blocker(num: string, domainId: int, severity: Severity)

  function Metrics(quality: int, governance: int, freshness: int, schema: int): seq<SubMetric>
  {
    [SubMetric("DATA QUALITY", quality), SubMetric("GOVERNANCE", governance),
     SubMetric("FRESHNESS", freshness), SubMetric("SCHEMA STABILITY", schema)]
  }

  const Domains: seq<Domain> := [
    Domain(1, "01", "SUPPLY CHAIN", Ready, 94, Metrics(98, 96, 91, 92), 8, 23),
    Domain(2, "02", "FLEET OPERATIONS", Ready, 87, Metrics(91, 85, 88, 84), 6, 15),
    Domain(3, "03", "CUSTOMER ANALYTICS", Attention, 68, Metrics(82, 71, 74, 45), 5, 31),
    Domain(4, "04", "FINANCE & BILLING", Ready, 91, Metrics(95, 98, 82, 89), 3, 8),
    Domain(5, "05", "PARTNER NETWORK", Attention, 53, Metrics(61, 48, 67, 36), 1, 4),
    Domain(6, "06", "HR & WORKFORCE", Blocked, 29, Metrics(44, 22, 31, 19), 1, 2)
  ]

  const Blockers: seq<Blocker> := [
    Blocker("01", 6, Critical),
    Blocker("02", 5, High),
    Blocker("03", 3, Medium),
    Blocker("04", 5, High)
  ]

  predicate UniqueDomainIds(ds: seq<Domain>)
  {
    forall i, j :: 0 <= i < j < |ds| ==> ds[i].id != ds[j].id
  }

  predicate HasDomain(ds: seq<Domain>, id: int)
  {
    exists i :: 0 <= i < |ds| && ds[i].id == id
  }

  /** Every blocker row names a domain card that exists. */
  lemma TablesConsistent()
    ensures UniqueDomainIds(Domains)
    ensures forall k :: 0 <= k < |Blockers| ==> HasDomain(Domains, Blockers[k].domainId)
  {
    assert Domains[5].id == 6 && Domains[4].id == 5 && Domains[2].id == 3;
  }

  // ---------------------------------------------------------------------
  // Summary figures
  // ---------------------------------------------------------------------

  function ReadyCount(ds: seq<Domain>): (n: nat)
    ensures n <= |ds|
    ensures n == |ds| <==> forall i :: 0 <= i < |ds| ==> ds[i].status == Ready
  {
    if |ds| == 0 then 0
    else
      var rest := ReadyCount(ds[1..]);
      assert forall i :: 1 <= i < |ds| ==> ds[i] == ds[1..][i - 1];
      (if ds[0].status == Ready then 1 else 0) + rest
  }

  function TotalDataProducts(ds: seq<Domain>): (n: nat)
    ensures (exists i :: 0 <= i < |ds| && ds[i].dataProducts > 0) ==> n > 0
  {
    if |ds| == 0 then 0
    else
      assert forall i :: 1 <= i < |ds| ==> ds[i] == ds[1..][i - 1];
      ds[0].dataProducts + TotalDataProducts(ds[1..])
  }

  function SeverityCount(bs: seq<Blocker>, s: Severity): (n: nat)
    ensures n <= |bs|
  {
    if |bs| == 0 then 0
    else (if bs[0].severity == s then 1 else 0) + SeverityCount(bs[1..], s)
  }

  /** The summary row prints "3 / 6" domains ready, "24 active" data
      products and "4 critical" blockers; the hero text says "6 domains
      scanned. 3 ready". The first two agree with the tables. The third
      counts every blocker: only one of the four has CRITICAL severity. */
  lemma SummaryMatchesTables()
    ensures ReadyCount(Domains) == 3 && |Domains| == 6
    ensures TotalDataProducts(Domains) == 24
    ensures |Blockers| == 4
    ensures SeverityCount(Blockers, Critical) == 1
  {
  }

  // ---------------------------------------------------------------------
  // Colour rules
  // ---------------------------------------------------------------------

  /** `scoreColor`: green from 80, amber from 50, red below. */
  function ScoreColor(score: int): (t: Tone)
    ensures t == Green <==> score >= 80
    ensures t == Amber <==> 50 <= score < 80
    ensures t == Red <==> score < 50
  {
    if score >= 80 then Green
    else if score >= 50 then Amber
    else Red
  }

  /** How good a band is: red < amber < green. */
  function BandRank(t: Tone): int
  {
    match t
    case Red => 0
    case Amber => 1
    case Green => 2
    case _ => -1
  }

  /** A higher score never lands in a worse band. */
  lemma ScoreColorMonotone(a: int, b: int)
    requires a <= b
    ensures BandRank(ScoreColor(a)) <= BandRank(ScoreColor(b))
  {
  }

  /** `severityColor`: red for CRITICAL, amber for the rest. */
  function SeverityColor(s: Severity): (t: Tone)
    ensures t == Red <==> s.Critical?
    ensures t == Amber <==> s.High? || s.Medium?
  {
    if s == Critical then Red else Amber
  }

  /** `Badge`: the accent, green, amber and red flags overwrite the
      default in that order, so the last set flag wins. */
  function Badge(accent: bool, green: bool, amber: bool, red: bool): (t: Tone)
    ensures red ==> t == Red
    ensures !red && amber ==> t == Amber
    ensures !red && !amber && green ==> t == Green
    ensures !red && !amber && !green && accent ==> t == Accent
    ensures !red && !amber && !green && !accent ==> t == Neutral
  {
    var fs := [(accent, Accent), (green, Green), (amber, Amber), (red, Red)];
    assert red ==> LastSetAt(fs, 3);
    assert !red && amber ==> LastSetAt(fs, 2);
    assert !red && !amber && green ==> LastSetAt(fs, 1);
    assert !red && !amber && !green && accent ==> LastSetAt(fs, 0);
    Paint(fs, Neutral)
  }

  /** The status badge on a domain card: green, amber or red by status,
      a distinct colour for each. */
  function StatusBadge(s: DomainStatus): (t: Tone)
    ensures t == Green <==> s == Ready
    ensures t == Amber <==> s == Attention
    ensures t == Red <==> s == Blocked
  {
    Badge(false, s == Ready, s == Attention, s == Blocked)
  }

  /** The severity badge on a blocker row: red for CRITICAL, amber for
      HIGH and MEDIUM. */
  function SeverityBadge(s: Severity): (t: Tone)
    ensures t == Red <==> s.Critical?
    ensures t == Amber <==> s.High? || s.Medium?
  {
    Badge(false, false, s == High || s == Medium, s == Critical)
  }

  /** A blocker row's badge and the highlight it casts on its domain card
      are the same colour. */
  lemma SeverityBadgeMatchesHighlight(s: Severity)
    ensures SeverityBadge(s) == SeverityColor(s)
  {
  }

  /** Every domain's status badge has the colour of its score band: the
      table's statuses are consistent with its scores. */
  lemma StatusAgreesWithScore()
    ensures forall i :: 0 <= i < |Domains| ==> StatusBadge(Domains[i].status) == ScoreColor(Domains[i].score)
  {
  }

  // ---------------------------------------------------------------------
  // Domain card
  // ---------------------------------------------------------------------

  /** Side border colours of a card: the hovered blocker's colour, the
      bright hover white, or the faint resting white. */
  datatype CardBorder = HighlightBorder(tone: Tone) | HoverBorder | RestBorder

  /** The top border's colour: the side colour, or a fixed red tint. */
  datatype TopColor = SideColor(side: CardBorder) | BlockedTint

  datatype TopBorder = TopBorder(widthPx: nat, color: TopColor)

  datatype CardFrame = CardFrame(side: CardBorder, top: TopBorder)

  /** `DomainCard`'s border: highlight beats hover beats rest; a blocked
      domain's top edge is drawn 2px in the fixed tint instead. */
  function CardStyle(d: Domain, isHighlighted: bool, highlightColor: Option<Tone>, hovered: bool): (f: CardFrame)
    ensures isHighlighted && highlightColor.Some? ==> f.side == HighlightBorder(highlightColor.value)
    ensures !(isHighlighted && highlightColor.Some?) && hovered ==> f.side == HoverBorder
    ensures !(isHighlighted && highlightColor.Some?) && !hovered ==> f.side == RestBorder
    ensures d.status == Blocked ==> f.top == TopBorder(2, BlockedTint)
    ensures d.status != Blocked ==> f.top == TopBorder(1, SideColor(f.side))
  {
    var side :=
      if isHighlighted && highlightColor.Some? then HighlightBorder(highlightColor.value)
      else if hovered then HoverBorder
      else RestBorder;
    var isBlocked := d.status == Blocked;
    CardFrame(side, TopBorder(if isBlocked then 2 else 1, if isBlocked then BlockedTint else SideColor(side)))
  }

  /** Neither hover nor highlight moves a blocked card's top edge. */
  lemma BlockedTopIsFixed(d: Domain, hi1: bool, c1: Option<Tone>, hov1: bool, hi2: bool, c2: Option<Tone>, hov2: bool)
    requires d.status == Blocked
    ensures CardStyle(d, hi1, c1, hov1).top == CardStyle(d, hi2, c2, hov2).top
  {
  }

  // ---------------------------------------------------------------------
  // Blocker hover and the domain grid
  // ---------------------------------------------------------------------

  /** The page's two blocker-hover slots. */
  datatype BlockerHover = BlockerHover(domainId: Option<int>, severity: Option<Severity>)

  const NoBlockerHover: BlockerHover := BlockerHover(None, None)

  /** Both slots set, or both empty. */
  predicate Paired(h: BlockerHover)
  {
    h.domainId.Some? <==> h.severity.Some?
  }

  datatype BlockerEvent = EnterBlocker(blocker: Blocker) | LeaveBlocker

  /** `onBlockerHover` / `onBlockerLeave`: both slots are written together. */
  function BlockerStep(h: BlockerHover, ev: BlockerEvent): (h': BlockerHover)
    ensures Paired(h')
    ensures ev.EnterBlocker? ==> h'.domainId == Some(ev.blocker.domainId) && h'.severity == Some(ev.blocker.severity)
    ensures ev.LeaveBlocker? ==> h' == NoBlockerHover
  {
    match ev
    case EnterBlocker(b) => BlockerHover(Some(b.domainId), Some(b.severity))
    case LeaveBlocker => BlockerHover(None, None)
  }

  /** `DomainGrid`'s `isHighlighted` for one card: the card of the hovered
      blocker's domain, whatever its severity; with no blocker hovered no
      card is highlighted. */
  function IsHighlighted(h: BlockerHover, d: Domain): (highlighted: bool)
    ensures h.domainId.None? ==> !highlighted
    ensures highlighted ==> h.domainId.value == d.id
    ensures h.domainId == Some(d.id) ==> highlighted
  {
    h.domainId == Some(d.id)
  }

  /** `DomainGrid`'s `highlightColor` for one card: only when the card is
      the hovered blocker's domain and a severity is present. */
  function HighlightColor(h: BlockerHover, d: Domain): (c: Option<Tone>)
    ensures c.Some? ==> IsHighlighted(h, d) && h.severity.Some? && c.value == SeverityColor(h.severity.value)
    ensures IsHighlighted(h, d) && h.severity.Some? ==> c.Some?
  {
    if h.domainId == Some(d.id) && h.severity.Some? then Some(SeverityColor(h.severity.value)) else None
  }

  /** The frame the grid draws for card `d`. */
  function GridCard(h: BlockerHover, d: Domain, hovered: bool): CardFrame
  {
    CardStyle(d, IsHighlighted(h, d), HighlightColor(h, d), hovered)
  }

  /** With the slots paired, a card has a highlight colour exactly when it
      is highlighted. */
  lemma PairedHighlightHasColor(h: BlockerHover, d: Domain)
    requires Paired(h)
    ensures HighlightColor(h, d).Some? <==> IsHighlighted(h, d)
  {
  }

  /** Domain ids are unique, so at most one card is highlighted. */
  lemma AtMostOneHighlighted(h: BlockerHover)
    ensures forall i, j :: (0 <= i < |Domains| && 0 <= j < |Domains| &&
                            IsHighlighted(h, Domains[i]) && IsHighlighted(h, Domains[j])) ==> i == j
  {
    TablesConsistent();
  }

  /** Hovering a blocker row highlights exactly one card, its domain's,
      whose side border takes the row's severity colour whether or not the
      pointer is also over the card; leaving the row clears every card. */
  lemma {:induction false} BlockerHoverHighlightsItsDomain(h: BlockerHover, k: int, hovered: bool)
    requires 0 <= k < |Blockers|
    ensures var h1 := BlockerStep(h, EnterBlocker(Blockers[k]));
      exists i :: 0 <= i < |Domains| && Domains[i].id == Blockers[k].domainId &&
        (forall j :: 0 <= j < |Domains| ==> (IsHighlighted(h1, Domains[j]) <==> j == i)) &&
        GridCard(h1, Domains[i], hovered).side == HighlightBorder(SeverityBadge(Blockers[k].severity))
    ensures var h2 := BlockerStep(BlockerStep(h, EnterBlocker(Blockers[k])), LeaveBlocker);
      forall j :: 0 <= j < |Domains| ==> !IsHighlighted(h2, Domains[j]) && HighlightColor(h2, Domains[j]).None?
  {
    TablesConsistent();
    var h1 := BlockerStep(h, EnterBlocker(Blockers[k]));
    var i :| 0 <= i < |Domains| && Domains[i].id == Blockers[k].domainId;
    AtMostOneHighlighted(h1);
    SeverityBadgeMatchesHighlight(Blockers[k].severity);
    assert forall j :: 0 <= j < |Domains| ==> (IsHighlighted(h1, Domains[j]) <==> j == i);
  }

  /** Pairing holds from the initial state under any run of hover events. */
  function BlockerRun(h: BlockerHover, evs: seq<BlockerEvent>): (h': BlockerHover)
    ensures Paired(h) ==> Paired(h')
    decreases |evs|
  {
    if |evs| == 0 then h else BlockerRun(BlockerStep(h, evs[0]), evs[1..])
  }

  // ---------------------------------------------------------------------
  // Catalog overlay
  // ---------------------------------------------------------------------

  /** `title` holds the source's `label` field (`label` is a Dafny keyword). */
  datatype NavItem = NavItem(num: string, title: string, description: string, href: Option<string>)

  const NavItems: seq<NavItem> := [
    NavItem("01", "DASHBOARD", "Overview & metrics", Some("/")),
    NavItem("02", "CATALOG", "Data product catalog", None),
    NavItem("03", "SOURCES", "Domain data sources", None),
    NavItem("04", "GOVERNANCE", "Access & compliance", None),
    NavItem("05", "AI MODELS", "Model integrations", None),
    NavItem("06", "SETTINGS", "Configuration", None),
    NavItem("07", "PRESENTATION", "Design strategy deck", Some("/deck")),
    NavItem("08", "AI READINESS", "AI readiness scorecard", Some("/scorecard"))
  ]

  datatype CatalogEvent =
    | ToggleCatalog          // the CATALOG + button in the top bar
    | KeyDown(key: string)   // a document key press
    | CloseButton            // CLOSE in the overlay header
    | ClickNavItem(item: NavItem)

  /** `catalogOpen` after one event. Escape is only listened for while the
      overlay is open; a nav item without a link is a button that closes
      the overlay, one with a link is a route change. */
  function CatalogStep(open: bool, ev: CatalogEvent): (open': bool)
    ensures ev.ToggleCatalog? ==> open' == !open
    ensures !ev.ToggleCatalog? && open' ==> open
    ensures ev.CloseButton? ==> !open'
    ensures ev.KeyDown? ==> (open' <==> open && ev.key != "Escape")
    ensures ev.ClickNavItem? && ev.item.href.None? ==> !open'
    ensures ev.ClickNavItem? && ev.item.href.Some? ==> open' == open
  {
    match ev
    case ToggleCatalog => !open
    case KeyDown(key) => if open && key == "Escape" then false else open
    case CloseButton => false
    case ClickNavItem(item) => if item.href.None? then false else open
  }

  /** Of the eight menu entries, the five without a route (02 to 06) are
      exactly the ones whose click closes the overlay; the three with a
      route leave the flag as it was. */
  lemma NavButtonsClose(open: bool)
    ensures forall k :: 0 <= k < |NavItems| ==> (NavItems[k].href.None? <==> 1 <= k <= 5)
    ensures forall k :: 0 <= k < |NavItems| ==>
      CatalogStep(open, ClickNavItem(NavItems[k])) == (open && !(1 <= k <= 5))
  {
  }

  /** Toggling twice restores the flag. */
  lemma ToggleTwice(open: bool)
    ensures CatalogStep(CatalogStep(open, ToggleCatalog), ToggleCatalog) == open
  {
  }

  /** Every way of closing is idempotent and leaves the overlay closed. */
  lemma ClosingIdempotent(open: bool, ev: CatalogEvent)
    requires ev == CloseButton || ev == KeyDown("Escape") || (ev.ClickNavItem? && ev.item.href.None?)
    ensures !CatalogStep(open, ev)
    ensures CatalogStep(CatalogStep(open, ev), ev) == CatalogStep(open, ev)
  {
  }

  function CatalogRun(open: bool, evs: seq<CatalogEvent>): bool
    decreases |evs|
  {
    if |evs| == 0 then open else CatalogRun(CatalogStep(open, evs[0]), evs[1..])
  }

  function ToggleCount(evs: seq<CatalogEvent>): (n: nat)
    ensures n <= |evs|
  {
    if |evs| == 0 then 0 else (if evs[0].ToggleCatalog? then 1 else 0) + ToggleCount(evs[1..])
  }

  /** Starting closed, the overlay can only be open after a run that
      toggled it at least once; and a run of toggles alone opens it
      exactly when it has odd length. */
  lemma {:induction false} OnlyToggleOpens(open: bool, evs: seq<CatalogEvent>)
    ensures !open && CatalogRun(open, evs) ==> ToggleCount(evs) > 0
    ensures ToggleCount(evs) == |evs| ==> (CatalogRun(open, evs) <==> (open != (|evs| % 2 == 1)))
    decreases |evs|
  {
    if |evs| > 0 {
      OnlyToggleOpens(CatalogStep(open, evs[0]), evs[1..]);
      if ToggleCount(evs) == |evs| {
        assert evs[0].ToggleCatalog?;
        assert (|evs| - 1) % 2 == 1 <==> |evs| % 2 == 0;
      }
    }
  }
}
