/** The board and turn state machine of memylon.js as values: the signed card
    ids (positive face up, negative face down, 0 removed), the index of the
    card picked first (-1 for none), the miss counter and the interaction
    gate. The Game module's class is specified against these functions. */
module Board {
  import opened Animation
  import opened Constants
  import opened Schedules
  import Utils

  /** The part of the game state a click reads and writes. */
  datatype BoardState = BoardState(ids: seq<int>, prevIdx: int, numMisses: nat, canInteract: bool)

  // ---------------------------------------------------------------------------
  // Cells

  /** The position resetGame caches for card `i`: row-major cells. */
  function CardX(i: nat): nat {
    (i % GridWidth) * CardWidth
  }

  function CardY(i: nat): nat {
    (i / GridWidth) * CardHeight
  }

  /** onMouseClick's cell index. The divisors are positive, so Dafny's `/`
      is the quotient rounded down, as Math.floor does. */
  function CellIndex(x: int, y: int): int {
    x / CardWidth + GridWidth * (y / CardHeight)
  }

  /** A click inside a card's cell selects that card. */
  lemma CellRoundTrip(i: nat, dx: int, dy: int)
    requires 0 <= dx < CardWidth && 0 <= dy < CardHeight
    ensures CellIndex(CardX(i) + dx, CardY(i) + dy) == i
  {
    assert (CardX(i) + dx) / CardWidth == i % GridWidth;
    assert (CardY(i) + dy) / CardHeight == i / GridWidth;
  }

  /** Conversely, every point of the board lies in the cell of the card the
      click selects. */
  lemma CellCovers(x: int, y: int)
    requires 0 <= x < GridWidth * CardWidth && 0 <= y < GridHeight * CardHeight
    ensures 0 <= CellIndex(x, y) < GridSize
    ensures CardX(CellIndex(x, y)) <= x < CardX(CellIndex(x, y)) + CardWidth
    ensures CardY(CellIndex(x, y)) <= y < CardY(CellIndex(x, y)) + CardHeight
  {
    var c := x / CardWidth;
    var r := y / CardHeight;
    assert 0 <= c < GridWidth && 0 <= r < GridHeight;
    assert CellIndex(x, y) % GridWidth == c && CellIndex(x, y) / GridWidth == r;
  }

  // ---------------------------------------------------------------------------
  // Clicks

  /** prevIdx is -1 or the index of a card. */
  predicate WellFormed(b: BoardState) {
    b.prevIdx == -1 || 0 <= b.prevIdx < |b.ids|
  }

  /** What a click on cell `idx` is. */
  datatype Pick = Ignored | FirstPick(idx: nat) | Match(idx: nat) | Mismatch(idx: nat)

  /** The guard and the two tests of onMouseClick: the click is ignored when
      interaction is off, there is no card at `idx`, it is the card already
      picked, or the card was removed; otherwise it is the first pick, or a
      second pick whose magnitude does or does not equal the first's. */
  function Classify(b: BoardState, idx: int): (p: Pick)
    requires WellFormed(b)
    ensures !p.Ignored? ==> 0 <= p.idx < |b.ids| && p.idx != b.prevIdx && b.ids[p.idx] != 0
    ensures p.FirstPick? || p.Ignored? || 0 <= b.prevIdx < |b.ids|
  {
    if !b.canInteract || !(0 <= idx < |b.ids|) || idx == b.prevIdx || b.ids[idx] == 0 then Ignored
    else if b.prevIdx == -1 then FirstPick(idx)
    else if Abs(b.ids[idx]) == Abs(b.ids[b.prevIdx]) then Match(idx)
    else Mismatch(idx)
  }

  /** The four kinds of click. While interaction is off every click is
      ignored; a click is ignored exactly when one of the guard's four tests
      fails. Otherwise the pick names the clicked card, is the first pick
      exactly when none is remembered, and a match exactly when the two
      cards show the same face. */
  lemma ClassifyCases(b: BoardState, idx: int)
    requires WellFormed(b)
    ensures !b.canInteract ==> Classify(b, idx).Ignored?
    ensures Classify(b, idx).Ignored? <==>
      !b.canInteract || !(0 <= idx < |b.ids|) || idx == b.prevIdx || b.ids[idx] == 0
    ensures !Classify(b, idx).Ignored? ==>
      (Classify(b, idx).idx == idx && (Classify(b, idx).FirstPick? <==> b.prevIdx == -1)
       && (Classify(b, idx).Match? <==> b.prevIdx != -1 && Abs(b.ids[idx]) == Abs(b.ids[b.prevIdx])))
  {
  }

  /** What becomes of the ambient sequences: they are kept, or replaced by
      the flying caption that names a matched card, or by the final scene
      that names it. */
  datatype Ambient = Keep | Announce(cardID: int) | Finale(cardID: int)

  /** The step lists of the sequences that replace the ambient ones. */
  function AmbientLists(a: Ambient): seq<seq<Step>>
    requires !a.Keep?
  {
    match a
    case Announce(cardID) => [CaptionSteps(cardID)]
    case Finale(cardID) => FinalScene(cardID)
  }

  /** The outcome of a click: the new board, the new step list of each card
      whose sequence is replaced, and the ambient sequences. */
  datatype Effect = Effect(next: BoardState, restarted: map<nat, seq<Step>>, ambient: Ambient)

  /** Every card has been removed. */
  predicate AllCleared(ids: seq<int>) {
    forall i :: 0 <= i < |ids| ==> ids[i] == 0
  }

  /** A first pick turns the card face up and remembers it. */
  function FirstPickEffect(b: BoardState, i: nat): Effect
    requires WellFormed(b) && Classify(b, i) == FirstPick(i)
  {
    Effect(b.(ids := b.ids[i := -b.ids[i]], prevIdx := i), map[i := FirstPickSteps(b.ids[i])], Keep)
  }

  /** A match removes both cards and flies the caption or, when it removes
      the last pair, plays the final scene; the first pick is forgotten. */
  function MatchEffect(b: BoardState, i: nat): Effect
    requires WellFormed(b) && Classify(b, i) == Match(i)
  {
    var p := b.prevIdx;
    var ids := b.ids[p := 0][i := 0];
    Effect(b.(ids := ids, prevIdx := -1),
           map[p := MatchPrevSteps(b.ids[p]), i := MatchCardSteps(b.ids[i])],
           if AllCleared(ids) then Finale(b.ids[i]) else Announce(b.ids[i]))
  }

  /** A mismatch turns the first card back, counts a miss and forgets the
      first pick. */
  function MismatchEffect(b: BoardState, i: nat): Effect
    requires WellFormed(b) && Classify(b, i) == Mismatch(i)
  {
    var p := b.prevIdx;
    Effect(b.(ids := b.ids[p := -b.ids[p]], prevIdx := -1, numMisses := b.numMisses + 1),
           map[p := MismatchPrevSteps(b.ids[p]), i := MismatchCardSteps(b.ids[i])], Keep)
  }

  /** A match clears both ids and forgets the first pick; what replaces
      the ambient sequences depends on the cleared ids alone. */
  lemma MatchIds(b: BoardState, i: nat)
    requires WellFormed(b) && Classify(b, i) == Match(i)
    ensures MatchEffect(b, i).next == BoardState(b.ids[b.prevIdx := 0][i := 0], -1, b.numMisses, b.canInteract)
    ensures MatchEffect(b, i).ambient
      == if AllCleared(b.ids[b.prevIdx := 0][i := 0]) then Finale(b.ids[i]) else Announce(b.ids[i])
  {
  }

  /** A mismatch writes only the first pick's id; the clicked card's id
      stays what it was. */
  lemma MismatchIds(b: BoardState, i: nat)
    requires WellFormed(b) && Classify(b, i) == Mismatch(i)
    ensures MismatchEffect(b, i).next
      == BoardState(b.ids[b.prevIdx := -b.ids[b.prevIdx]][i := b.ids[i]], -1, b.numMisses + 1, b.canInteract)
  {
    var ids := b.ids[b.prevIdx := -b.ids[b.prevIdx]];
    assert ids[i := b.ids[i]] == ids;
  }

  /** The effect of a classified click; an ignored click changes nothing. */
  function Outcome(b: BoardState, pick: Pick): (e: Effect)
    requires WellFormed(b) && (pick.Ignored? || Classify(b, pick.idx) == pick)
    ensures WellFormed(e.next) && |e.next.ids| == |b.ids| && e.next.canInteract == b.canInteract
  {
    match pick
    case Ignored => Effect(b, map[], Keep)
    case FirstPick(i) => FirstPickEffect(b, i)
    case Match(i) => MatchEffect(b, i)
    case Mismatch(i) => MismatchEffect(b, i)
  }

  /** onMouseClick: the effect of a click at canvas pixel (x, y). */
  function Click(b: BoardState, x: int, y: int): (e: Effect)
    requires WellFormed(b)
    ensures WellFormed(e.next) && |e.next.ids| == |b.ids| && e.next.canInteract == b.canInteract
  {
    Outcome(b, Classify(b, CellIndex(x, y)))
  }

  // ---------------------------------------------------------------------------
  // The board invariant

  /** How many cards show face `m` (> 0), on either side. */
  function Count(ids: seq<int>, m: nat): nat {
    multiset(ids)[m] + multiset(ids)[-m]
  }

  /** Every face is on no card or on exactly two cards. */
  ghost predicate Paired(ids: seq<int>) {
    forall m: nat :: m > 0 ==> Count(ids, m) == 0 || Count(ids, m) == 2
  }

  /** Every face has a name: |id| - 1 indexes CARD_NAMES. */
  predicate Named(ids: seq<int>) {
    forall i :: 0 <= i < |ids| ==> Abs(ids[i]) <= NameCount
  }

  /** With no first pick no card is face up; otherwise exactly the first
      pick is. */
  predicate Faces(b: BoardState) {
    if b.prevIdx == -1 then forall i :: 0 <= i < |b.ids| ==> b.ids[i] <= 0
    else 0 <= b.prevIdx < |b.ids| && b.ids[b.prevIdx] > 0
         && forall i :: 0 <= i < |b.ids| && i != b.prevIdx ==> b.ids[i] <= 0
  }

  /** The invariant a reset establishes and every click keeps. */
  ghost predicate Inv(b: BoardState) {
    |b.ids| == GridSize && WellFormed(b) && Paired(b.ids) && Named(b.ids) && Faces(b)
  }

  /** Turning one card over does not change how many cards show each face. */
  lemma TurnKeepsCount(ids: seq<int>, i: nat, m: nat)
    requires i < |ids| && m > 0
    ensures Count(ids[i := -ids[i]], m) == Count(ids, m)
  {
    var v := ids[i];
    assert multiset(ids[i := -v]) == multiset(ids) - multiset{v} + multiset{-v};
  }

  /** The number of removed cards. */
  function Removed(ids: seq<int>): nat {
    multiset(ids)[0]
  }

  /** How often `k` occurs once positions `p` and `i` are cleared: each
      cleared value loses one occurrence and 0 gains two. */
  lemma ClearTwo(ids: seq<int>, p: nat, i: nat, k: int)
    requires p < |ids| && i < |ids| && p != i
    ensures multiset(ids[p := 0][i := 0])[k] + (if ids[p] == k then 1 else 0) + (if ids[i] == k then 1 else 0)
      == multiset(ids)[k] + (if k == 0 then 2 else 0)
  {
    var mid := ids[p := 0];
    assert multiset(mid) == multiset(ids) - multiset{ids[p]} + multiset{0};
    assert mid[i] == ids[i];
    assert multiset(mid[i := 0]) == multiset(mid) - multiset{ids[i]} + multiset{0};
    assert ids[p] in multiset(ids) && ids[i] in multiset(mid);
  }

  /** Clearing a face-up card and its face-down partner: their face loses
      both cards, every other face keeps its count, and two more cards are
      removed. */
  lemma ClearPairCount(ids: seq<int>, p: nat, i: nat, m: nat)
    requires p < |ids| && i < |ids| && p != i && ids[p] > 0 && ids[i] == -ids[p] && m > 0
    ensures Count(ids[p := 0][i := 0], m) + (if m == ids[p] then 2 else 0) == Count(ids, m)
  {
    ClearTwo(ids, p, i, m);
    ClearTwo(ids, p, i, -(m as int));
  }

  lemma ClearPairRemoved(ids: seq<int>, p: nat, i: nat)
    requires p < |ids| && i < |ids| && p != i && ids[p] > 0 && ids[i] == -ids[p]
    ensures Removed(ids[p := 0][i := 0]) == Removed(ids) + 2
  {
    ClearTwo(ids, p, i, 0);
  }

  /** A match removes exactly the pair of the matched face: that face is on
      no card afterwards, every other face keeps its count and two more cards
      are removed. */
  lemma MatchCounts(b: BoardState, i: nat)
    requires Inv(b) && Classify(b, i) == Match(i)
    ensures var n := MatchEffect(b, i).next;
      Count(n.ids, Abs(b.ids[i])) == 0
      && (forall m: nat :: m > 0 && m != Abs(b.ids[i]) ==> Count(n.ids, m) == Count(b.ids, m))
      && Removed(n.ids) == Removed(b.ids) + 2
  {
    var p := b.prevIdx;
    var m0 := Abs(b.ids[i]);
    assert b.ids[p] == m0 && b.ids[i] == -b.ids[p];
    assert MatchEffect(b, i).next.ids == b.ids[p := 0][i := 0];
    assert m0 in multiset(b.ids) && b.ids[i] in multiset(b.ids) by {
      assert b.ids[p] in b.ids && b.ids[i] in b.ids;
    }
    assert Count(b.ids, m0) == 2;
    ClearPairRemoved(b.ids, p, i);
    forall m: nat | m > 0
      ensures Count(b.ids[p := 0][i := 0], m) + (if m == m0 then 2 else 0) == Count(b.ids, m)
    {
      ClearPairCount(b.ids, p, i, m);
    }
  }

  /** The same for a click: a match removes the pair, counts no miss and
      forgets the first pick. */
  lemma MatchRemovesPair(b: BoardState, x: int, y: int)
    requires Inv(b) && Classify(b, CellIndex(x, y)).Match?
    ensures var i := Classify(b, CellIndex(x, y)).idx; var n := Click(b, x, y).next;
      Count(n.ids, Abs(b.ids[i])) == 0
      && (forall m: nat :: m > 0 && m != Abs(b.ids[i]) ==> Count(n.ids, m) == Count(b.ids, m))
      && Removed(n.ids) == Removed(b.ids) + 2
      && n.numMisses == b.numMisses && n.prevIdx == -1
  {
    MatchCounts(b, Classify(b, CellIndex(x, y)).idx);
  }

  /** A second pick matches exactly when it shows the face of the first pick
      (the first pick is face up, every other card face down). */
  lemma MatchIffPartner(b: BoardState, x: int, y: int)
    requires Inv(b) && b.prevIdx != -1
    requires !Classify(b, CellIndex(x, y)).Ignored?
    ensures Classify(b, CellIndex(x, y)).Match? <==> b.ids[CellIndex(x, y)] == -b.ids[b.prevIdx]
    ensures Classify(b, CellIndex(x, y)).Match? || Classify(b, CellIndex(x, y)).Mismatch?
  {
  }

  /** A mismatch leaves every card face down with its face unchanged, counts
      one miss and forgets the first pick. */
  lemma MismatchHidesBoth(b: BoardState, x: int, y: int)
    requires Inv(b) && Classify(b, CellIndex(x, y)).Mismatch?
    ensures var n := Click(b, x, y).next;
      (forall j :: 0 <= j < |n.ids| ==> n.ids[j] <= 0 && Abs(n.ids[j]) == Abs(b.ids[j]))
      && n.numMisses == b.numMisses + 1 && n.prevIdx == -1
  {
  }

  /** A click changes at most the clicked card and the first pick, restarts
      the sequences of those cards only, and an ignored click changes
      nothing. */
  lemma ClickIsLocal(b: BoardState, x: int, y: int)
    requires WellFormed(b)
    ensures var e := Click(b, x, y);
      (forall j :: 0 <= j < |b.ids| && j != CellIndex(x, y) && j != b.prevIdx ==> e.next.ids[j] == b.ids[j])
      && (forall j :: j in e.restarted ==> j == CellIndex(x, y) || j == b.prevIdx)
      && (Classify(b, CellIndex(x, y)).Ignored? ==> e == Effect(b, map[], Keep))
  {
  }

  /** A first pick keeps the invariant: one card turns face up. */
  lemma FirstPickKeepsInv(b: BoardState, i: nat)
    requires Inv(b) && Classify(b, i) == FirstPick(i)
    ensures Inv(FirstPickEffect(b, i).next)
  {
    var n := FirstPickEffect(b, i).next;
    forall m: nat | m > 0
      ensures Count(n.ids, m) == Count(b.ids, m)
    {
      TurnKeepsCount(b.ids, i, m);
    }
  }

  /** A first pick remembers the clicked card and turns it face up, showing
      the same face; no other card changes and no miss is counted. */
  lemma FirstPickShowsCard(b: BoardState, x: int, y: int)
    requires Inv(b) && Classify(b, CellIndex(x, y)).FirstPick?
    ensures var c := CellIndex(x, y); var n := Click(b, x, y).next;
      n.prevIdx == c && n.ids[c] == -b.ids[c] > 0
      && (forall j :: 0 <= j < |b.ids| && j != c ==> n.ids[j] == b.ids[j])
      && n.numMisses == b.numMisses
  {
  }

  /** A match keeps the invariant: a whole pair goes. */
  lemma MatchKeepsInv(b: BoardState, i: nat)
    requires Inv(b) && Classify(b, i) == Match(i)
    ensures Inv(MatchEffect(b, i).next)
  {
    MatchCounts(b, i);
  }

  /** A mismatch keeps the invariant: the first pick turns back. */
  lemma MismatchKeepsInv(b: BoardState, i: nat)
    requires Inv(b) && Classify(b, i) == Mismatch(i)
    ensures Inv(MismatchEffect(b, i).next)
  {
    var n := MismatchEffect(b, i).next;
    forall m: nat | m > 0
      ensures Count(n.ids, m) == Count(b.ids, m)
    {
      TurnKeepsCount(b.ids, b.prevIdx, m);
    }
  }

  /** Every click keeps the invariant. */
  lemma ClickPreservesInv(b: BoardState, x: int, y: int)
    requires Inv(b)
    ensures Inv(Click(b, x, y).next)
  {
    match Classify(b, CellIndex(x, y))
    case Ignored =>
    case FirstPick(i) => FirstPickKeepsInv(b, i);
    case Match(i) => MatchKeepsInv(b, i);
    case Mismatch(i) => MismatchKeepsInv(b, i);
  }

  /** The final scene is scheduled exactly when a match removes the last
      pair; any other match flies the caption; a match replaces the ambient
      sequences and nothing else does. */
  lemma FinalSceneWhenCleared(b: BoardState, x: int, y: int)
    requires WellFormed(b)
    ensures var e := Click(b, x, y);
      (!e.ambient.Keep? <==> Classify(b, CellIndex(x, y)).Match?)
      && (e.ambient.Finale? <==> Classify(b, CellIndex(x, y)).Match? && AllCleared(e.next.ids))
      && (!e.ambient.Keep? ==> e.ambient.cardID == b.ids[Classify(b, CellIndex(x, y)).idx])
  {
  }

  /** The name shown for a matched card exists: |id| - 1 indexes
      CARD_NAMES. */
  lemma MatchNameInRange(b: BoardState, x: int, y: int)
    requires Inv(b) && Classify(b, CellIndex(x, y)).Match?
    ensures 0 <= Abs(b.ids[Classify(b, CellIndex(x, y)).idx]) - 1 < NameCount
  {
  }

  /** Once every card is removed, no click does anything. */
  lemma ClearedBoardIgnoresClicks(b: BoardState, x: int, y: int)
    requires WellFormed(b) && AllCleared(b.ids)
    ensures Click(b, x, y) == Effect(b, map[], Keep)
  {
  }

  // ---------------------------------------------------------------------------
  // resetGame

  /** The ids array resetGame fills: 1 .. CardVariations. */
  function FaceIds(): (r: seq<int>)
    ensures |r| == CardVariations && forall i :: 0 <= i < CardVariations ==> r[i] == i + 1
  {
    seq(CardVariations, i => i + 1)
  }

  /** The dealt deck: card `i` shows face `p[i / 2]`, face down. */
  function Deal(p: seq<int>): (r: seq<int>)
    requires |p| >= GridSize / 2
    ensures |r| == GridSize && forall i :: 0 <= i < GridSize ==> r[i] == -p[i / 2]
  {
    seq(GridSize, i requires 0 <= i < GridSize => -p[i / 2])
  }

  /** The board resetGame leaves, for the draws of its two shuffles. */
  function ResetBoard(nameDraws: seq<real>, cardDraws: seq<real>): BoardState
    requires |nameDraws| == CardVariations && |cardDraws| == GridSize
    requires Utils.UnitDraws(nameDraws) && Utils.UnitDraws(cardDraws)
  {
    var faces := Utils.Shuffled(FaceIds(), nameDraws, CardVariations);
    BoardState(Utils.Shuffled(Deal(faces), cardDraws, GridSize), -1, 0, false)
  }

  /** The faces shown on the cards. */
  function Magnitudes(ids: seq<int>): set<nat> {
    set x | x in ids :: Abs(x)
  }

  /** The first 2k dealt cards hold the first k faces, twice each. */
  lemma {:induction false} DealCount(p: seq<int>, k: nat, m: nat)
    requires GridSize / 2 <= |p| && k <= GridSize / 2 && m > 0 && Utils.Distinct(p)
    requires forall j :: 0 <= j < |p| ==> p[j] > 0
    ensures Count(Deal(p)[..2 * k], m) == if m in p[..k] then 2 else 0
  {
    if k > 0 {
      DealCount(p, k - 1, m);
      var d := Deal(p);
      assert d[..2 * k] == d[..2 * (k - 1)] + [-p[k - 1], -p[k - 1]];
      assert p[..k] == p[..k - 1] + [p[k - 1]];
      if p[k - 1] == m {
        assert m !in p[..k - 1];
      }
    }
  }

  /** Pairwise different values make a set of as many elements. */
  lemma {:induction false} DistinctCard(q: seq<int>)
    requires Utils.Distinct(q)
    ensures |set x | x in q| == |q|
  {
    if |q| > 0 {
      var init := q[..|q| - 1];
      DistinctCard(init);
      assert (set x | x in q) == (set x | x in init) + {q[|q| - 1]};
      assert q[|q| - 1] !in init;
    }
  }

  /** The faces picked by the first shuffle: pairwise different, each in
      1 .. CardVariations. */
  lemma ShuffledFaces(nameDraws: seq<real>)
    requires |nameDraws| == CardVariations && Utils.UnitDraws(nameDraws)
    ensures var faces := Utils.Shuffled(FaceIds(), nameDraws, CardVariations);
      Utils.Distinct(faces) && forall j :: 0 <= j < |faces| ==> 1 <= faces[j] <= CardVariations
  {
    var faces := Utils.Shuffled(FaceIds(), nameDraws, CardVariations);
    Utils.ShuffledPermutation(FaceIds(), nameDraws, CardVariations);
    Utils.ShuffledDistinct(FaceIds(), nameDraws, CardVariations);
    forall j | 0 <= j < |faces|
      ensures 1 <= faces[j] <= CardVariations
    {
      assert faces[j] in multiset(FaceIds());
    }
  }

  /** Shuffling the dealt deck keeps every face on zero or two cards and
      every card face down with a face in 1 .. CardVariations. */
  lemma DealtCounts(faces: seq<int>, cardDraws: seq<real>)
    requires |faces| == CardVariations && Utils.Distinct(faces)
    requires forall j :: 0 <= j < |faces| ==> 1 <= faces[j] <= CardVariations
    requires |cardDraws| == GridSize && Utils.UnitDraws(cardDraws)
    ensures var ids := Utils.Shuffled(Deal(faces), cardDraws, GridSize);
      (forall m: nat :: m > 0 ==> Count(ids, m) == 0 || Count(ids, m) == 2)
      && forall i :: 0 <= i < GridSize ==> -(CardVariations as int) <= ids[i] < 0
  {
    var dealt := Deal(faces);
    var ids := Utils.Shuffled(dealt, cardDraws, GridSize);
    Utils.ShuffledPermutation(dealt, cardDraws, GridSize);
    assert dealt[..2 * (GridSize / 2)] == dealt;
    forall m: nat | m > 0
      ensures Count(ids, m) == 0 || Count(ids, m) == 2
    {
      DealCount(faces, GridSize / 2, m);
    }
    forall i | 0 <= i < GridSize
      ensures -(CardVariations as int) <= ids[i] < 0
    {
      assert ids[i] in multiset(dealt);
    }
  }

  /** Rearranging the cards does not change the faces shown. */
  lemma MagnitudesPermutation(s: seq<int>, t: seq<int>)
    requires multiset(s) == multiset(t)
    ensures Magnitudes(s) == Magnitudes(t)
  {
    forall v | v in Magnitudes(s)
      ensures v in Magnitudes(t)
    {
      var x :| x in s && v == Abs(x);
      assert x in multiset(t);
    }
    forall v | v in Magnitudes(t)
      ensures v in Magnitudes(s)
    {
      var x :| x in t && v == Abs(x);
      assert x in multiset(s);
    }
  }

  /** The dealt deck shows exactly the first GridSize / 2 faces. */
  lemma DealMagnitudes(faces: seq<int>)
    requires |faces| >= GridSize / 2
    requires forall j :: 0 <= j < |faces| ==> faces[j] > 0
    ensures Magnitudes(Deal(faces)) == set x | x in faces[..GridSize / 2]
  {
    var dealt := Deal(faces);
    var first := faces[..GridSize / 2];
    forall v | v in Magnitudes(dealt)
      ensures v in first
    {
      var x :| x in dealt && v == Abs(x);
      var i :| 0 <= i < GridSize && dealt[i] == x;
      assert v == first[i / 2];
    }
    forall v | v in first
      ensures v in Magnitudes(dealt)
    {
      var j :| 0 <= j < GridSize / 2 && first[j] == v;
      assert dealt[2 * j] == -v && -v in dealt;
      assert v == Abs(-v);
    }
  }

  /** The shuffled deck shows GridSize / 2 different faces. */
  lemma DealtMagnitudes(faces: seq<int>, cardDraws: seq<real>)
    requires |faces| == CardVariations && Utils.Distinct(faces)
    requires forall j :: 0 <= j < |faces| ==> 1 <= faces[j] <= CardVariations
    requires |cardDraws| == GridSize && Utils.UnitDraws(cardDraws)
    ensures |Magnitudes(Utils.Shuffled(Deal(faces), cardDraws, GridSize))| == GridSize / 2
  {
    var dealt := Deal(faces);
    Utils.ShuffledPermutation(dealt, cardDraws, GridSize);
    MagnitudesPermutation(Utils.Shuffled(dealt, cardDraws, GridSize), dealt);
    DealMagnitudes(faces);
    DistinctCard(faces[..GridSize / 2]);
  }

  /** resetGame deals GridSize cards, all face down, showing GridSize / 2
      different faces twice each, all in 1 .. CardVariations; nothing is
      picked, no miss is counted and interaction is off. The invariant holds. */
  lemma ResetDealsPairs(nameDraws: seq<real>, cardDraws: seq<real>)
    requires |nameDraws| == CardVariations && |cardDraws| == GridSize
    requires Utils.UnitDraws(nameDraws) && Utils.UnitDraws(cardDraws)
    ensures var b := ResetBoard(nameDraws, cardDraws);
      |b.ids| == GridSize
      && (forall i :: 0 <= i < GridSize ==> -(CardVariations as int) <= b.ids[i] < 0)
      && (forall m: nat :: m > 0 ==> Count(b.ids, m) == 0 || Count(b.ids, m) == 2)
      && |Magnitudes(b.ids)| == GridSize / 2
      && b.prevIdx == -1 && b.numMisses == 0 && !b.canInteract
      && Inv(b)
  {
    var faces := Utils.Shuffled(FaceIds(), nameDraws, CardVariations);
    ShuffledFaces(nameDraws);
    DealtCounts(faces, cardDraws);
    DealtMagnitudes(faces, cardDraws);
  }
}
