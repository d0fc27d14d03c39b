/** The Memylon game module (memylon.js:66-336): the cards, the ambient
    sequences and the turn state, updated in place by resetGame, onMouseClick
    and updateBoard. Each method is specified against the Board functions
    through View(). */
module Game {
  import opened Animation
  import opened Constants
  import opened AnimFunctions
  import opened Schedules
  import opened Board
  import Utils

  /** A card: its signed id, its step sequence and its cached position. */
  datatype Card = Card(id: int, anim: AnimSequence, x: int, y: int)

  /** An `exec` call that runs the game's callback. */
  predicate Enables(call: Invocation) {
    Fires(call) && call.param == CallbackParam(EnableInteraction)
  }

  /** Some call of a frame runs the game's callback. */
  predicate AnyEnables(calls: seq<Invocation>) {
    exists j :: 0 <= j < |calls| && Enables(calls[j])
  }

  lemma AnyEnablesAppend(calls: seq<Invocation>, call: Invocation)
    ensures AnyEnables(calls + [call]) <==> AnyEnables(calls) || Enables(call)
  {
    if Enables(call) {
      assert (calls + [call])[|calls|] == call;
    }
    if AnyEnables(calls) {
      var j :| 0 <= j < |calls| && Enables(calls[j]);
      assert (calls + [call])[j] == calls[j];
    }
  }

  class Memylon {
    var cards: seq<Card>
    var anims: seq<AnimSequence>
    var prevIdx: int
    var numMisses: nat
    var canInteract: bool

    /** The signed ids, in board order. */
    function Ids(): (r: seq<int>)
      reads this`cards
      ensures |r| == |cards| && forall i :: 0 <= i < |cards| ==> r[i] == cards[i].id
    {
      var cs := cards;
      seq(|cs|, i requires 0 <= i < |cs| => cs[i].id)
    }

    /** The turn state as a value. */
    function View(): BoardState
      reads this
    {
      BoardState(Ids(), prevIdx, numMisses, canInteract)
    }

    /** Every sequence object the game holds. */
    function Objects(): set<AnimSequence>
      reads this`cards, this`anims
    {
      (set c | c in cards :: c.anim) + (set a | a in anims)
    }

    /** No sequence object is shared: updateBoard advances each exactly once. */
    predicate Separate()
      reads this`cards, this`anims
    {
      (forall i, j :: 0 <= i < j < |cards| ==> cards[i].anim != cards[j].anim)
      && (forall i, j :: 0 <= i < j < |anims| ==> anims[i] != anims[j])
      && (forall i, j :: 0 <= i < |cards| && 0 <= j < |anims| ==> cards[i].anim != anims[j])
    }

    /** Every sequence can be updated. */
    ghost predicate SeqsReady()
      reads this`cards, this`anims, Objects()
    {
      (forall i :: 0 <= i < |cards| ==> Ready(cards[i].anim.State()))
      && (forall j :: 0 <= j < |anims| ==> Ready(anims[j].State()))
    }

    /** The game's state is usable: prevIdx names a card or is -1, every
        sequence can be updated, and none is shared. */
    ghost predicate Valid()
      reads this`cards, this`anims, this`prevIdx, Objects()
      ensures Valid() ==> WellFormed(View())
    {
      (prevIdx == -1 || 0 <= prevIdx < |cards|) && SeqsReady() && Separate()
    }

    /** The module's initial state, before the first resetGame. */
    constructor ()
      ensures View() == BoardState([], -1, 0, false) && anims == [] && Valid()
    {
      cards := [];
      anims := [];
      prevIdx := -1;
      numMisses := 0;
      canInteract := false;
    }

    /** flashCards: turns interaction off, gives every card its flash
        sequence (delayed by its column) and makes the ambient sequences a
        single `exec` that turns interaction back on. */
    method FlashCards()
      requires WellFormed(View())
      modifies this
      ensures Ids() == old(Ids()) && prevIdx == old(prevIdx) && numMisses == old(numMisses) && !canInteract
      ensures |cards| == old(|cards|)
      ensures forall i :: 0 <= i < |cards| ==>
        cards[i].x == old(cards[i].x) && cards[i].y == old(cards[i].y) && fresh(cards[i].anim)
        && cards[i].anim.State() == Start(FlashSteps(i % GridWidth, cards[i].id))
      ensures |anims| == 1 && fresh(anims[0]) && anims[0].State() == Start(FlashExecSteps(|cards| > 0))
      ensures Valid()
    {
      canInteract := false;
      FlashEach();
      var exec := Anim(FlashExecSteps(|cards| > 0));
      anims := [exec];
    }

    /** The loop of flashCards: every card gets a new flash sequence delayed
        by its column. */
    method FlashEach()
      modifies this`cards
      ensures Ids() == old(Ids()) && |cards| == old(|cards|)
      ensures forall i :: 0 <= i < |cards| ==>
        cards[i].x == old(cards[i].x) && cards[i].y == old(cards[i].y) && fresh(cards[i].anim)
        && cards[i].anim.State() == Start(FlashSteps(i % GridWidth, cards[i].id))
      ensures forall i, j :: 0 <= i < j < |cards| ==> cards[i].anim != cards[j].anim
    {
      var i := 0;
      while i < |cards|
        invariant 0 <= i <= |cards| == old(|cards|)
        invariant Ids() == old(Ids())
        invariant forall j :: 0 <= j < |cards| ==> cards[j].x == old(cards[j].x) && cards[j].y == old(cards[j].y)
        invariant forall j :: 0 <= j < i ==>
          fresh(cards[j].anim) && cards[j].anim.State() == Start(FlashSteps(j % GridWidth, cards[j].id))
        invariant forall j, k :: 0 <= j < k < i ==> cards[j].anim != cards[k].anim
      {
        var a := Anim(FlashSteps(i % GridWidth, cards[i].id));
        cards := cards[i := cards[i].(anim := a)];
        i := i + 1;
      }
    }

    /** resetGame: deals the shuffled pairs face down, caches the positions,
        clears the misses, the ambient sequences and the first pick, and
        starts the flash. `nameDraws` and `cardDraws` are the Math.random()
        results of the two shuffles. */
    method ResetGame(nameDraws: seq<real>, cardDraws: seq<real>)
      requires |nameDraws| == CardVariations && |cardDraws| == GridSize
      requires Utils.UnitDraws(nameDraws) && Utils.UnitDraws(cardDraws)
      modifies this
      ensures View() == ResetBoard(nameDraws, cardDraws)
      ensures |cards| == GridSize
      ensures forall i :: 0 <= i < GridSize ==>
        cards[i].x == CardX(i) && cards[i].y == CardY(i) && fresh(cards[i].anim)
        && cards[i].anim.State() == Start(FlashSteps(i % GridWidth, cards[i].id))
      ensures |anims| == 1 && fresh(anims[0]) && anims[0].State() == Start(FlashExecSteps(true))
      ensures Valid()
    {
      DealBoard(nameDraws, cardDraws);
      numMisses := 0;
      anims := [];
      prevIdx := -1;
      FlashCards();
    }

    /** The three loops of resetGame that build the cards: the shuffled
        pairs are dealt face down and every card caches its position. */
    method DealBoard(nameDraws: seq<real>, cardDraws: seq<real>)
      requires |nameDraws| == CardVariations && |cardDraws| == GridSize
      requires Utils.UnitDraws(nameDraws) && Utils.UnitDraws(cardDraws)
      modifies this`cards
      ensures Ids() == ResetBoard(nameDraws, cardDraws).ids
      ensures forall j :: 0 <= j < |cards| ==> cards[j].x == CardX(j) && cards[j].y == CardY(j)
      ensures forall j :: 0 <= j < |cards| ==>
        fresh(cards[j].anim) && cards[j].anim.State() == Start([Step(Pose, Undefined, NoParam)])
    {
      var faces := DrawFaces(nameDraws);
      var dealt := DealCards(faces);
      var shuffled := ShuffleCards(dealt, cardDraws);
      DealtIdsShuffle(dealt, faces, cardDraws);
      forall j | 0 <= j < |shuffled|
        ensures fresh(shuffled[j].anim) && shuffled[j].anim.State() == Start([Step(Pose, Undefined, NoParam)])
      {
        var k :| 0 <= k < |dealt| && dealt[k] == shuffled[j];
      }
      cards := shuffled;
      PlaceCards();
    }

    /** The position loop of resetGame: every card caches the pixel
        position of its cell. */
    method PlaceCards()
      modifies this`cards
      ensures Ids() == old(Ids()) && |cards| == old(|cards|)
      ensures forall j :: 0 <= j < |cards| ==> cards[j].x == CardX(j) && cards[j].y == CardY(j)
      ensures forall j :: 0 <= j < |cards| ==> cards[j].anim == old(cards[j].anim)
    {
      var i := 0;
      while i < |cards|
        invariant 0 <= i <= |cards| == old(|cards|)
        invariant Ids() == old(Ids())
        invariant forall j :: 0 <= j < |cards| ==> cards[j].anim == old(cards[j].anim)
        invariant forall j :: 0 <= j < i ==> cards[j].x == CardX(j) && cards[j].y == CardY(j)
      {
        cards := cards[i := cards[i].(x := (i % GridWidth) * CardWidth, y := (i / GridWidth) * CardHeight)];
        i := i + 1;
      }
    }

    /** Makes `seqs` the ambient sequences; they must be updatable, pairwise
        different and not any card's sequence. */
    method SetAmbient(seqs: seq<AnimSequence>)
      requires Valid()
      requires forall j :: 0 <= j < |seqs| ==> Ready(seqs[j].State())
      requires forall i, j :: 0 <= i < j < |seqs| ==> seqs[i] != seqs[j]
      requires forall i, j :: 0 <= i < |cards| && 0 <= j < |seqs| ==> cards[i].anim != seqs[j]
      modifies this`anims
      ensures anims == seqs && Valid()
    {
      anims := seqs;
    }

    /** playFinalScene: the five lines of the final scene become the ambient
        sequences. */
    method PlayFinalScene(cardID: int)
      requires Valid()
      modifies this`anims
      ensures |anims| == 5 && forall j :: 0 <= j < 5 ==>
        fresh(anims[j]) && anims[j].State() == Start(FinalScene(cardID)[j])
      ensures Valid()
    {
      var seqs := AnimAll(FinalScene(cardID));
      SetAmbient(seqs);
    }

    /** The cards' sequence objects. */
    function CardObjects(): set<AnimSequence>
      reads this`cards
    {
      set c | c in cards :: c.anim
    }

    /** Relative to the state before, the cards listed in `restarted` hold
        fresh sequences of the listed steps and every other card keeps its
        sequence object in the same state. No card moves. */
    twostate predicate CardsRestarted(restarted: map<nat, seq<Step>>)
      reads this`cards, CardObjects()
    {
      |cards| == old(|cards|)
      && (forall i :: 0 <= i < |cards| ==> cards[i].x == old(cards[i].x) && cards[i].y == old(cards[i].y))
      && (forall i :: 0 <= i < |cards| ==>
            if i in restarted then
              fresh(cards[i].anim) && cards[i].anim.State() == Start(restarted[i])
            else
              cards[i].anim == old(cards[i].anim) && cards[i].anim.State() == old(cards[i].anim.State()))
    }

    /** Relative to the state before, the ambient sequences are kept or
        replaced by fresh sequences of the given step lists. */
    twostate predicate AmbientDone(ambient: Ambient)
      reads this`anims, set a | a in anims
    {
      (ambient.Keep? ==> anims == old(anims))
      && (!ambient.Keep? ==>
            |anims| == |AmbientLists(ambient)|
            && forall j :: 0 <= j < |anims| ==> fresh(anims[j]) && anims[j].State() == Start(AmbientLists(ambient)[j]))
    }

    /** Relative to the state before, the game did what `e` says: the new
        turn state, the restarted cards and the ambient sequences. */
    twostate predicate Performed(e: Effect)
      reads this, Objects()
    {
      View() == e.next && CardsRestarted(e.restarted) && AmbientDone(e.ambient)
    }

    /** What every transition does to a card it touches: gives it the id
        `id` and a new sequence of `steps`. */
    method Restart(i: nat, id: int, steps: seq<Step>)
      requires Valid() && i < |cards| && |steps| > 0
      modifies this`cards
      ensures Valid()
      ensures |cards| == old(|cards|) && forall j :: 0 <= j < |cards| && j != i ==> cards[j] == old(cards[j])
      ensures cards[i].id == id && cards[i].x == old(cards[i].x) && cards[i].y == old(cards[i].y)
      ensures fresh(cards[i].anim) && cards[i].anim.State() == Start(steps)
    {
      var a := Anim(steps);
      cards := cards[i := cards[i].(anim := a, id := id)];
    }

    /** The two cards of a second pick, `p` (the first pick) and `i`, get new
        ids and new sequences; nothing else changes. */
    method RestartTwo(p: nat, idP: int, stepsP: seq<Step>, i: nat, idI: int, stepsI: seq<Step>)
      requires Valid() && p < |cards| && i < |cards| && p != i && |stepsP| > 0 && |stepsI| > 0
      modifies this`cards
      ensures Valid()
      ensures Ids() == old(Ids())[p := idP][i := idI]
      ensures CardsRestarted(map[p := stepsP, i := stepsI])
    {
      Restart(p, idP, stepsP);
      Restart(i, idI, stepsI);
    }

    /** A second pick: the first pick `p` and the clicked card `i` get new
        ids and new sequences, and the first pick is forgotten; nothing else
        changes. */
    method SecondPick(p: nat, idP: int, stepsP: seq<Step>, i: nat, idI: int, stepsI: seq<Step>)
      requires Valid() && p < |cards| && i < |cards| && p != i && |stepsP| > 0 && |stepsI| > 0
      modifies this`cards, this`prevIdx
      ensures Valid() && prevIdx == -1
      ensures Ids() == old(Ids())[p := idP][i := idI]
      ensures CardsRestarted(map[p := stepsP, i := stepsI])
    {
      prevIdx := -1;
      RestartTwo(p, idP, stepsP, i, idI, stepsI);
    }

    /** The first pick of card `i`: it is remembered and flips face up. */
    method PickFirst(i: nat)
      requires Valid() && Classify(View(), i) == FirstPick(i)
      modifies this`cards, this`prevIdx
      ensures Valid() && Performed(FirstPickEffect(old(View()), i))
    {
      prevIdx := i;
      var id := cards[i].id;
      Restart(i, -id, FirstPickSteps(id));
    }

    /** The `every` test of a match: no card is left on the board. */
    method NoCardsLeft() returns (cleared: bool)
      ensures cleared <==> AllCleared(Ids())
    {
      cleared := Utils.Every(cards, (c: Card) => c.id == 0);
    }

    /** The ambient part of a match: the caption with the card's name flies;
        when `every` finds no card left, the final scene replaces it. The
        `every` test runs before the caption is made rather than after;
        making it does not change the cards. */
    method AnnounceMatch(cardID: int)
      requires Valid()
      modifies this`anims
      ensures Valid()
      ensures AmbientDone(if AllCleared(Ids()) then Finale(cardID) else Announce(cardID))
    {
      var cleared := NoCardsLeft();
      var caption := Anim(CaptionSteps(cardID));
      SetAmbient([caption]);
      if cleared {
        PlayFinalScene(cardID);
      }
    }

    /** A second pick that matches the first: both cards dissolve and are
        removed, and the caption flies, or the final scene plays when no card
        is left. memylon.js makes the caption before it clears the two ids
        and forgets the first pick last; neither step reads what the other
        writes, so the order here gives the same state. */
    method PickMatch(i: nat)
      requires Valid() && Classify(View(), i) == Match(i)
      modifies this`cards, this`anims, this`prevIdx
      ensures Valid() && Performed(MatchEffect(old(View()), i))
    {
      var p := prevIdx;
      var prevID := cards[p].id;
      var cardID := cards[i].id;
      MatchIds(View(), i);
      SecondPick(p, 0, MatchPrevSteps(prevID), i, 0, MatchCardSteps(cardID));
      AnnounceMatch(cardID);
    }

    /** A second pick that does not match: both cards show and flip back,
        the first card's id turns face down again and a miss is counted. The
        miss is counted before the cards are touched rather than after, and
        the clicked card's id is written back unchanged; the resulting state
        is the same. */
    method PickMismatch(i: nat)
      requires Valid() && Classify(View(), i) == Mismatch(i)
      modifies this`cards, this`prevIdx, this`numMisses
      ensures Valid() && Performed(MismatchEffect(old(View()), i))
    {
      var p := prevIdx;
      var prevID := cards[p].id;
      var cardID := cards[i].id;
      MismatchIds(View(), i);
      numMisses := numMisses + 1;
      SecondPick(p, -prevID, MismatchPrevSteps(prevID), i, cardID, MismatchCardSteps(cardID));
    }

    /** onMouseClick: the click at canvas pixel (x, y) does what Click says. */
    method OnMouseClick(x: int, y: int)
      requires Valid()
      modifies this
      ensures Valid() && Performed(Click(old(View()), x, y))
    {
      var cardIdx := x / CardWidth + GridWidth * (y / CardHeight);
      if canInteract && 0 <= cardIdx < |cards| && cardIdx != prevIdx && cards[cardIdx].id != 0 {
        if prevIdx == -1 {
          PickFirst(cardIdx);
        } else if Abs(cards[cardIdx].id) == Abs(cards[prevIdx].id) {
          PickMatch(cardIdx);
        } else {
          PickMismatch(cardIdx);
        }
      }
    }

    /** The cards' sequences, in board order. */
    function CardAnims(): (r: seq<AnimSequence>)
      reads this
      ensures |r| == |cards| && forall i :: 0 <= i < |cards| ==> r[i] == cards[i].anim
    {
      var cs := cards;
      seq(|cs|, i requires 0 <= i < |cs| => cs[i].anim)
    }

    /** One loop of updateBoard: advances each of `seqs` by one frame, in
        order, and runs the callback of every `exec` that fires. */
    method AdvanceEach(seqs: seq<AnimSequence>) returns (calls: seq<Invocation>)
      requires forall i, j :: 0 <= i < j < |seqs| ==> seqs[i] != seqs[j]
      requires forall i :: 0 <= i < |seqs| ==> Ready(seqs[i].State())
      modifies this, set a | a in seqs
      ensures cards == old(cards) && anims == old(anims)
      ensures prevIdx == old(prevIdx) && numMisses == old(numMisses)
      ensures |calls| == |seqs| && forall i :: 0 <= i < |seqs| ==>
        Tick(seqs[i].State(), calls[i]) == Advance(old(seqs[i].State()), FrameTime)
      ensures canInteract <==> (old(canInteract) || AnyEnables(calls))
    {
      calls := [];
      var i := 0;
      while i < |seqs|
        invariant 0 <= i <= |seqs| && |calls| == i
        invariant cards == old(cards) && anims == old(anims)
        invariant prevIdx == old(prevIdx) && numMisses == old(numMisses)
        invariant forall j :: 0 <= j < i ==>
          Tick(seqs[j].State(), calls[j]) == Advance(old(seqs[j].State()), FrameTime)
        invariant forall j :: i <= j < |seqs| ==> seqs[j].State() == old(seqs[j].State())
        invariant canInteract <==> (old(canInteract) || AnyEnables(calls))
      {
        var call := seqs[i].Update(FrameTime);
        if Enables(call) {
          canInteract := true;
        }
        AnyEnablesAppend(calls, call);
        calls := calls + [call];
        i := i + 1;
      }
    }

    /** updateBoard: advances every card's sequence and then every ambient
        sequence by one frame, returning the calls made in drawing order; an
        `exec` of the game's callback that fires turns interaction on. */
    method UpdateBoard() returns (cardCalls: seq<Invocation>, ambientCalls: seq<Invocation>)
      requires Valid()
      modifies this, Objects()
      ensures Valid()
      ensures cards == old(cards) && anims == old(anims)
      ensures prevIdx == old(prevIdx) && numMisses == old(numMisses)
      ensures |cardCalls| == |cards| && forall i :: 0 <= i < |cards| ==>
        Tick(cards[i].anim.State(), cardCalls[i]) == Advance(old(cards[i].anim.State()), FrameTime)
      ensures |ambientCalls| == |anims| && forall j :: 0 <= j < |anims| ==>
        Tick(anims[j].State(), ambientCalls[j]) == Advance(old(anims[j].State()), FrameTime)
      ensures canInteract <==> (old(canInteract) || AnyEnables(cardCalls) || AnyEnables(ambientCalls))
    {
      var cs := CardAnims();
      assert forall a :: a in cs ==> a in Objects();
      cardCalls := AdvanceEach(cs);
      assert forall j :: 0 <= j < |anims| ==> anims[j] !in cs;
      ambientCalls := AdvanceEach(anims);
    }
  }

  /** An array literal of anim(...) calls, evaluated element by element:
      a new, separate sequence for each step list. */
  method AnimAll(lists: seq<seq<Step>>) returns (seqs: seq<AnimSequence>)
    ensures |seqs| == |lists|
    ensures forall j :: 0 <= j < |lists| ==> fresh(seqs[j]) && seqs[j].State() == Start(lists[j])
    ensures forall i, j :: 0 <= i < j < |seqs| ==> seqs[i] != seqs[j]
  {
    seqs := [];
    var k := 0;
    while k < |lists|
      invariant 0 <= k <= |lists| && |seqs| == k
      invariant forall j :: 0 <= j < k ==> fresh(seqs[j]) && seqs[j].State() == Start(lists[j])
      invariant forall i, j :: 0 <= i < j < k ==> seqs[i] != seqs[j]
    {
      var a := Anim(lists[k]);
      seqs := seqs + [a];
      k := k + 1;
    }
  }

  /** The first loop of resetGame and its shuffle: the faces
      1 .. CardVariations in a random order. */
  method DrawFaces(nameDraws: seq<real>) returns (faces: seq<int>)
    requires |nameDraws| == CardVariations && Utils.UnitDraws(nameDraws)
    ensures faces == Utils.Shuffled(FaceIds(), nameDraws, CardVariations)
  {
    var ids := new int[CardVariations];
    var i := CardVariations;
    while i > 0
      invariant 0 <= i <= CardVariations
      invariant forall j :: i <= j < CardVariations ==> ids[j] == j + 1
    {
      i := i - 1;
      ids[i] := i + 1;
    }
    assert ids[..] == FaceIds();
    Utils.ShuffleArray(ids, nameDraws);
    faces := ids[..];
  }

  /** The second loop of resetGame: card `i` shows face `faces[i / 2]` face
      down and gets a new sequence of one `pose` step without a duration.
      The loop fills the cards from the first index up; memylon.js fills
      them from the last one down, which builds the same cards. */
  method DealCards(faces: seq<int>) returns (dealt: seq<Card>)
    requires |faces| >= GridSize / 2
    ensures |dealt| == GridSize && forall j :: 0 <= j < GridSize ==> dealt[j].id == Deal(faces)[j]
    ensures forall j :: 0 <= j < GridSize ==>
      fresh(dealt[j].anim) && dealt[j].anim.State() == Start([Step(Pose, Undefined, NoParam)])
  {
    dealt := [];
    var i := 0;
    while i < GridSize
      invariant 0 <= i <= GridSize && |dealt| == i
      invariant forall j :: 0 <= j < i ==> dealt[j].id == -faces[j / 2]
      invariant forall j :: 0 <= j < i ==>
        fresh(dealt[j].anim) && dealt[j].anim.State() == Start([Step(Pose, Undefined, NoParam)])
    {
      var a := Anim([Step(Pose, Undefined, NoParam)]);
      dealt := dealt + [Card(-faces[i / 2], a, 0, 0)];
      i := i + 1;
    }
  }

  /** The card shuffle of resetGame, on an array of the dealt cards. */
  method ShuffleCards(dealt: seq<Card>, cardDraws: seq<real>) returns (shuffled: seq<Card>)
    requires |dealt| == GridSize == |cardDraws| && Utils.UnitDraws(cardDraws)
    ensures shuffled == Utils.Shuffled(dealt, cardDraws, GridSize)
    ensures forall j :: 0 <= j < GridSize ==> exists k :: 0 <= k < GridSize && dealt[k] == shuffled[j]
  {
    var deck := new Card[GridSize](j requires 0 <= j < |dealt| => dealt[j]);
    assert deck[..] == dealt;
    Utils.ShuffleArray(deck, cardDraws);
    shuffled := deck[..];
    forall j | 0 <= j < GridSize
      ensures exists k :: 0 <= k < GridSize && dealt[k] == shuffled[j]
    {
      assert shuffled[j] in multiset(dealt);
    }
  }

  /** The ids of the dealt cards, once shuffled, are the dealt ids shuffled. */
  lemma DealtIdsShuffle(dealt: seq<Card>, faces: seq<int>, cardDraws: seq<real>)
    requires |dealt| == GridSize && |faces| >= GridSize / 2
    requires |cardDraws| == GridSize && Utils.UnitDraws(cardDraws)
    requires forall j :: 0 <= j < GridSize ==> dealt[j].id == Deal(faces)[j]
    ensures forall j :: 0 <= j < GridSize ==>
      Utils.Shuffled(dealt, cardDraws, GridSize)[j].id == Utils.Shuffled(Deal(faces), cardDraws, GridSize)[j]
  {
    var id := (c: Card) => c.id;
    assert Utils.MapSeq(dealt, id) == Deal(faces);
    Utils.ShuffledMap(dealt, id, cardDraws, GridSize);
  }
}
