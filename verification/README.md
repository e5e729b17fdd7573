# MeshX Foundation mock screens — a Dafny model

The repository is a set of client-side mock screens for a fictitious data
platform: a dashboard with a data-lineage graph, an AI-readiness scorecard and
a fourteen-slide presentation deck. All data is constant and all state is
local UI state, so the logic that can be modelled is small but exact:

- **Lineage graph** (`lineage.dfy`, module `Lineage`, from `app/page.tsx`).
  Five nodes and four edges. `nodeById` is a first-match lookup. Each edge is
  drawn as one cubic Bézier segment from the source node's right-centre anchor
  to the target node's left-centre anchor, with both control points on the
  vertical through the anchors' midpoint. An active edge carries a flow-rate
  tag: a 110 × 18 box whose bottom edge is centred on the anchors' midpoint
  (`edgeMidpoint`). Two hover slots (node, edge) decide which edges are
  active, which node is emphasised and which feature row is highlighted.
- **Scorecard** (`scorecard.dfy`, module `Scorecard`, from
  `app/scorecard/page.tsx`). The domain and blocker tables and the summary
  figures printed from them. The score and severity colour bands. The Badge
  override order. The domain card border rules. The blocker-hover pair of
  slots that picks the highlighted card. The catalog overlay flag.
- **Deck** (`deck.dfy`, module `Deck`, from `app/deck/page.tsx`). The slide
  index, moved by keys and click zones and clamped to `[0, 13]`. The
  progress-bar width. The zero-padded "NN / NN" counter. The deck's Badge,
  which has an extra `gray` flag. The quality drill-down slide's
  severity-to-badge mapping.
- Shared: `palette.dfy` (module `Palette`) holds colour identities as tags
  (`Tone`). It also holds `Paint`, the "sequence of independent `if (flag)`
  overrides" rule that both Badge components follow. `wrappers.dfy` holds
  `Option`, which stands for the source's `T | null` slots.

Colours are modelled by identity (`Red`, `Amber`, …), not by CSS string.
Coordinates are `real`, because the geometry does not stay integral: edge
e1's `edgeMidpoint` has y = 122.5. Scores are `int`, because every score in the
tables is a whole number.

Three facts fall out of the proofs that the pages never state:

- `LabelOnCurve` and `TagRestsOnCurve`: the drawn Bézier passes exactly
  through `edgeMidpoint` at parameter 1/2, so the flow-rate tag's box rests
  on the curve with the centre of its bottom edge.
- `CurvePointSymmetric`: every edge is point-symmetric about `edgeMidpoint`.
- The scorecard's summary row prints "4 critical" blockers. That figure counts
  all four blockers, but only one of them has severity CRITICAL
  (`Scorecard.SummaryMatchesTables`).

## Model

| member | source | states |
|---|---|---|
| Palette.Paint | app/scorecard/page.tsx:201-218 | Running the flag overrides in order yields the default when no flag is set, and otherwise the colour of the last flag that is set |
| Palette.LaterFlagWins | app/deck/page.tsx:43-64 | Whatever overrides come first, a set flag at the end decides the colour; the deck's Badge uses it for its final `gray` flag |
| Lineage.IdsUnique | app/page.tsx:43-99 | No two nodes share an id and no two edges share an id |
| Lineage.GraphWellFormed | app/page.tsx:94-99 | Every edge's endpoints name existing nodes. Every edge runs from a source into the foundation engine, or from the foundation engine into the supply-chain output |
| Lineage.KindsById | app/page.tsx:43-89 | A node is of kind source exactly for the three source ids, transform exactly for the foundation engine and output exactly for the supply-chain data product |
| Lineage.EdgeEndpointKinds | app/page.tsx:43-99 | No edge leaves the output node and no edge enters a source node |
| Lineage.FindNode | app/page.tsx:139-141 | `find` returns nothing exactly when no node has the id; otherwise it returns a listed node with that id, and no earlier node has it |
| Lineage.NodeById | app/page.tsx:139-141 | The lookup always succeeds on the closed id set and returns a listed node carrying the requested id |
| Lineage.NodeByIdInverse | app/page.tsx:43-89 | Looking up a listed node by its own id returns that same node, because ids are unique |
| Lineage.EdgePath | app/page.tsx:143-152 | The path starts at (from.x + NODE_W, from.y + NODE_H/2) and ends at (to.x, to.y + NODE_H/2). Both control points have x = (x1 + x2)/2. The first control point has the start's y and the second has the end's y |
| Lineage.EdgeMidpoint | app/page.tsx:154-162 | The point the flow-rate tag is placed on, which is computed separately from the node records, is the component-wise average of the path's start and end anchors |
| Lineage.CurveEndpoints | app/page.tsx:143-152 | The curve as drawn evaluates to the right anchor of the source node at t = 0 and to the left anchor of the target node at t = 1 |
| Lineage.LabelOnCurve | app/page.tsx:143-162 | The drawn curve at t = 1/2 is exactly `edgeMidpoint` |
| Lineage.CurvePointSymmetric | app/page.tsx:143-162 | For every t, the curve points at t and 1 − t are mirror images about `edgeMidpoint` |
| Lineage.FirstEdgeGeometry | app/page.tsx:43-99 | Edge e1 starts at (190, 75) and ends at (230, 170). Both control points are at x = 210 and `edgeMidpoint` is (210, 122.5) |
| Lineage.TagFor | app/page.tsx:369-389 | The flow-rate tag's box is 110 wide and 18 high with the centre of its bottom edge on `edgeMidpoint`; the text is anchored on that centre line, 6 above the bottom edge |
| Lineage.TagRestsOnCurve | app/page.tsx:369-389 | The curve at t = 1/2 is the centre of the tag box's bottom edge, and the text anchor lies inside the box straight above that point |
| Lineage.IsEdgeActive | app/page.tsx:178-184 | With nothing hovered no edge is active. Hovering the edge, or its source or target node, makes it active, and nothing else does |
| Lineage.SourceForFeature | app/page.tsx:186-189 | A feature row is highlighted exactly while its own source node is the hovered node; while another node or no node is hovered it is unlit, whatever edge is hovered |
| Lineage.NodeEmphasised | app/page.tsx:396-400 | A node switches to its hover colours exactly while it is the hovered node; with no node hovered none is emphasised |
| Lineage.ActiveEdgeIds | app/page.tsx:355-357 | The set of active edge ids, built by the model from the per-edge test the page applies while drawing: an id is in it exactly when its edge is active, and nothing else is |
| Lineage.NothingHoveredNothingActive | app/page.tsx:169-170 | With both hover slots empty, no edge is active |
| Lineage.HubLightsEveryEdge | app/page.tsx:94-99 | Hovering the foundation engine makes all four edges active, whatever the edge slot holds |
| Lineage.SourceHoverLightsOneEdge | app/page.tsx:178-184 | Hovering a source node alone makes exactly its one outgoing edge active |
| Lineage.EdgeHoverLightsOnlyIt | app/page.tsx:362-367 | Hovering one edge's hit area alone makes exactly that edge active |
| Lineage.HoverMonotone | app/page.tsx:178-184 | Filling an empty hover slot never turns an active edge inactive |
| Lineage.Step | app/page.tsx:274-406 | Node and feature events write only the node slot, and edge events write only the edge slot. An enter event stores its target and a leave event clears its slot |
| Lineage.FeatureNodesDistinct | app/page.tsx:101-127 | The three feature rows point at three different source nodes |
| Lineage.FeatureHoverRoundTrip | app/page.tsx:260-275 | Entering a feature row highlights that row and no other, emphasises its node and activates its outgoing edge. Leaving the row clears every row highlight and every node emphasis, and the edge slot is back to what it was |
| Lineage.PanelsAgree | app/page.tsx:186-189 | A feature row is highlighted exactly when its source node is emphasised. Hovering the transform or output node highlights no row |
| Lineage.AtMostOneNodeEmphasised | app/page.tsx:396-400 | At most one node is emphasised at any time |
| Scorecard.TablesConsistent | app/scorecard/page.tsx:41-163 | Domain ids are unique and every blocker's `domainId` names an existing domain |
| Scorecard.ReadyCount | app/scorecard/page.tsx:372 | The count of READY domains is at most the number of domains, and equals it exactly when every domain is READY |
| Scorecard.TotalDataProducts | app/scorecard/page.tsx:373 | The total is positive whenever some domain has a data product |
| Scorecard.SummaryMatchesTables | app/scorecard/page.tsx:371-374 | "3 / 6" READY domains and "24 active" data products match the tables. "4" is the number of blockers, of which one is CRITICAL |
| Scorecard.ScoreColor | app/scorecard/page.tsx:229-233 | Scores of 80 and above are green, 50–79 amber and below 50 red, each band in both directions |
| Scorecard.ScoreColorMonotone | app/scorecard/page.tsx:229-233 | A higher score never gets a worse band |
| Scorecard.SeverityColor | app/scorecard/page.tsx:536-539 | Red exactly for CRITICAL, amber exactly for HIGH and MEDIUM |
| Scorecard.Badge | app/scorecard/page.tsx:188-218 | Red beats amber, amber beats green, green beats accent, and accent beats the default |
| Scorecard.StatusBadge | app/scorecard/page.tsx:461-467 | The status badge is green exactly for READY, amber exactly for ATTENTION and red exactly for BLOCKED |
| Scorecard.SeverityBadge | app/scorecard/page.tsx:618-621 | The severity badge is red exactly for CRITICAL and amber exactly for HIGH and MEDIUM |
| Scorecard.SeverityBadgeMatchesHighlight | app/scorecard/page.tsx:618-621 | A blocker row's severity badge has the same colour as the highlight it puts on its domain card |
| Scorecard.StatusAgreesWithScore | app/scorecard/page.tsx:461-467 | Every domain's status badge colour equals the colour band of its score |
| Scorecard.CardStyle | app/scorecard/page.tsx:415-424 | The side border is the highlight colour when highlighted with a colour, else the hover colour when hovered, else the rest colour. The top border is 2px blocked tint for BLOCKED domains, and 1px in the side colour for the others |
| Scorecard.BlockedTopIsFixed | app/scorecard/page.tsx:422-424 | A BLOCKED card's top border is the same under every highlight and hover combination |
| Scorecard.BlockerStep | app/scorecard/page.tsx:699-706 | Hovering a blocker sets both slots from the row and leaving clears both, so the slots stay paired |
| Scorecard.IsHighlighted | app/scorecard/page.tsx:563 | A card is highlighted exactly when it belongs to the hovered blocker's domain, whatever the severity; with no blocker hovered no card is |
| Scorecard.HighlightColor | app/scorecard/page.tsx:563-568 | A card has a highlight colour only when it is the hovered blocker's domain and a severity is set, and then the colour is that severity's colour |
| Scorecard.PairedHighlightHasColor | app/scorecard/page.tsx:563-568 | When the slots are paired, a card has a highlight colour exactly when it is highlighted |
| Scorecard.AtMostOneHighlighted | app/scorecard/page.tsx:558-571 | Because domain ids are unique, at most one card is highlighted |
| Scorecard.BlockerHoverHighlightsItsDomain | app/scorecard/page.tsx:599-606 | Hovering blocker k highlights exactly one card, its domain's. That card's side border has the row's badge colour whether or not the card is also hovered. Leaving the row clears every card |
| Scorecard.BlockerRun | app/scorecard/page.tsx:670-674 | From paired slots, any sequence of hover events leaves the slots paired |
| Scorecard.CatalogStep | app/scorecard/page.tsx:677-690 | Toggling negates the flag. Every other event can only close the overlay. Close and link-less nav buttons always close it, and a nav item with a link leaves it as it was. A key press closes it exactly when it is Escape |
| Scorecard.NavButtonsClose | app/scorecard/page.tsx:167-176 | The five menu entries 02 to 06 are exactly those without a route, and exactly those whose click closes the overlay; the three with a route leave the flag unchanged |
| Scorecard.ToggleTwice | app/scorecard/page.tsx:690 | Toggling twice restores the flag |
| Scorecard.ClosingIdempotent | app/scorecard/page.tsx:726 | Escape, the close button and a link-less nav item all leave the overlay closed, and repeating them changes nothing |
| Scorecard.OnlyToggleOpens | app/scorecard/page.tsx:675-690 | Starting closed, the overlay is open only after at least one toggle. A run made only of toggles opens it exactly when the run has odd length |
| Deck.Next | app/deck/page.tsx:1643 | Next moves one slide forward, and stops on the last slide |
| Deck.Prev | app/deck/page.tsx:1647 | Previous moves one slide back, and stops on the first slide |
| Deck.NavigationStaysInRange | app/deck/page.tsx:1641-1648 | From a valid index, next and previous stay in [0, 13]. Previous undoes next except at the end, and next undoes previous except at the start |
| Deck.EdgesAreFixedPoints | app/deck/page.tsx:1636-1647 | Next changes nothing exactly on the last slide, and previous changes nothing exactly on the first |
| Deck.OnInput | app/deck/page.tsx:1640-1686 | ArrowRight, ArrowDown, space and the right click zone move next. ArrowLeft, ArrowUp and the left click zone move previous. Only Escape leaves for the dashboard. Other keys change nothing |
| Deck.Run | app/deck/page.tsx:1636-1686 | Starting from a valid index, the index stays in [0, 13] under any sequence of inputs, and moves at most as many slides in all as there are inputs |
| Deck.ForwardClicks | app/deck/page.tsx:1684 | n clicks on the right zone take slide i to min(i + n, 13), so every slide can be reached from the first |
| Deck.BackKeys | app/deck/page.tsx:1645-1647 | n presses of ArrowLeft take slide i to max(i − n, 0) |
| Deck.Progress | app/deck/page.tsx:1657 | On a valid index the progress width lies in (0, 100], and it is 100 exactly on the last slide |
| Deck.ProgressGrows | app/deck/page.tsx:1657 | The progress width strictly increases with the index |
| Deck.Decimal | app/deck/page.tsx:1673 | `String(n)` is a non-empty run of digits with no leading zero. It has one digit exactly when n < 10, and at most two when n < 100 |
| Deck.DecimalRoundTrip | app/deck/page.tsx:1673 | Reading the decimal string of n gives back n |
| Deck.PadStart | app/deck/page.tsx:1673-1674 | The result is as long as the target width, or as long as the input if that is longer. It ends with the input and every character before the input is the fill character |
| Deck.LeadingZeros | app/deck/page.tsx:1673 | Prepending zeros to a digit string does not change the value read back |
| Deck.TwoDigits | app/deck/page.tsx:1673-1674 | The padded string is at least two digits and reads back as n; for n below 100 it is exactly two digits |
| Deck.Counter | app/deck/page.tsx:1672-1675 | The counter has the same width, 7 characters, on every slide |
| Deck.CounterShape | app/deck/page.tsx:1672-1675 | On every slide the counter's first two characters are digits reading the 1-based slide number, and the rest is " / 14" |
| Deck.Badge | app/deck/page.tsx:28-64 | Gray beats red, red beats amber, amber beats green, green beats accent, and accent beats the default |
| Deck.BadgesAgree | app/deck/page.tsx:43-60 | With `gray` unset, the deck's Badge and the scorecard's Badge give the same colour for every flag combination |
| Deck.IssueBadge | app/deck/page.tsx:938-942 | WARNING gets amber, and every other severity gets gray |
| Deck.IssueTableMatchesHeading | app/deck/page.tsx:857-911 | The "4 Issues Detected" heading matches the table's four rows: three amber warnings and one gray info row |

## Left out

- Rendering: JSX and SVG markup, Tailwind classes, fonts, CSS colour strings (kept only as `Tone` tags), and `app/layout.tsx`. These are presentation and framework configuration.
- The SVG path string `M x1 y1 C …`. Formatting a JavaScript number as text is not modelled, so `EdgePath` returns the four points the string is built from.
- framer-motion animations, `AnimatePresence` and transition delays. These are cosmetic timing.
- The CTA button flash on both pages. It is a `setTimeout` side effect.
- Event-listener registration and removal, `preventDefault`, `router.push("/")` and `Link` navigation. `Deck.OnInput` reports Escape as `goHome` and does not model the route change. `Scorecard.CatalogStep` leaves the flag unchanged for a nav item with a link, because following the link is a route change.
- A Badge's rectangle width `badge.length * 5.5 + 10` on the dashboard. This is floating-point sizing.
- The node badge stroke (output vs. others) and the transform node's green dot. These are fixed per node kind and involve no state.
- Feature, blocker and issue descriptions, the deck's slide copy and its literal mock data are dropped; the other table fields are kept. Three fields named `label` in the pages are called `subtitle` (`Lineage.Node`), `name` (`Scorecard.SubMetric`) and `title` (`Scorecard.NavItem`), because `label` is a Dafny keyword.
- `OVERALL_SCORE` and `STATS`. They are printed constants that no code derives.
- Scorecard.ScoreColor: modelled on integer scores only. Every score in the tables is an integer, and no fractional score reaches the function.
- Deck.PadStart: the fill is a single character. The source only pads with "0", so multi-character fill strings, which JavaScript truncates, are not modelled.
- Deck.Decimal: covers non-negative integers only. The counter only ever formats 1..14.
- Numbers: JavaScript numbers are IEEE doubles and the model uses exact `real`s. No stated property depends on rounding: the coordinates are small values with exact binary forms (multiples of 0.5), `(14 / 14) * 100` is exactly 100 in double arithmetic, and neighbouring progress values differ by about 7, far above any rounding error.
- Node selection with toggle and click-outside, and a sparkline projector: no code for either exists in the three modelled pages (the deck's sparkline is a literal point list), so neither is part of this model.
