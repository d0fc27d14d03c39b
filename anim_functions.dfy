/** AnimFunctions (memylon.js:134-185) and drawCard's choice of sprite
    (memylon.js:104-115): what one call of a step function draws or does.
    Pixels, scaling and fonts are not modelled; what is drawn is. */
module AnimFunctions {
  import opened Animation
  import opened Constants
  import Utils

  // ---------------------------------------------------------------------------
  // Card sprites

  /** drawCard's glyph: the face of a positive id, the back (glyph 0) otherwise. */
  function Glyph(cardID: int): nat {
    if cardID > 0 then cardID else 0
  }

  /** Left edge of a glyph in the card atlas image. */
  function AtlasX(glyph: nat): nat {
    (glyph % CardsInRow) * CardWidth
  }

  /** Top edge of a glyph in the card atlas image. */
  function AtlasY(glyph: nat): nat {
    (glyph / CardsInRow) * CardHeight
  }

  /** Each glyph has its own cell of the atlas, and every face fits in an
      atlas of CardsInRow columns and six rows. */
  lemma AtlasCells(g1: nat, g2: nat)
    ensures g1 != g2 ==> AtlasX(g1) != AtlasX(g2) || AtlasY(g1) != AtlasY(g2)
    ensures g1 <= CardVariations ==>
      AtlasX(g1) <= (CardsInRow - 1) * CardWidth && AtlasY(g1) <= 5 * CardHeight
  {
  }

  /** The signed card id carried by a step's startParam; an undefined one
      draws like 0 (the back). */
  function IdOf(p: Param): int {
    if p.CardParam? then p.id else 0
  }

  /** flip's face choice: the sign of cos(PI * t). For t in [0, 1] it is
      positive up to and including t = 1/2 (Math.cos(Math.PI * 0.5) is a tiny
      positive number) and negative after; an undefined t gives NaN, which is
      not positive. */
  function FlipFace(p: Progress, cardID: int): (r: int)
    ensures r == cardID || r == -cardID
    ensures p == NoProgress ==> r == -cardID
  {
    if p.At? && p.t <= 0.5 then cardID else -cardID
  }

  // ---------------------------------------------------------------------------
  // Captions

  /** The defaults of the first setDefaults call in `text`. */
  const BaseDefaults: map<Field, Value> :=
    map[SizeFrom := Num(10.0), XFrom := Num(182.0), YFrom := Num(150.0),
        AlphaFrom := Num(1.0), Font := Str("Arial"), Bold := Flag(true),
        Color := Str("#2222AA")]

  /** The defaults of the second call: every `*To` defaults to its `*From`. */
  function ToDefaults(p: map<Field, Value>): map<Field, Value>
    requires SizeFrom in p && AlphaFrom in p && XFrom in p && YFrom in p
  {
    map[SizeTo := p[SizeFrom], AlphaTo := p[AlphaFrom],
        XTo := p[XFrom], YTo := p[YFrom]]
  }

  /** The caption object after both setDefaults calls of `text`. */
  function FillCaption(p: map<Field, Value>): (r: map<Field, Value>)
    ensures BaseDefaults.Keys <= r.Keys
    ensures SizeTo in r && AlphaTo in r && XTo in r && YTo in r
  {
    var p1 := Utils.WithDefaults(p, BaseDefaults);
    Utils.WithDefaults(p1, ToDefaults(p1))
  }

  /** A numeric field; a missing or non-numeric one reads as 0 (memylon.js
      only ever stores numbers there). */
  function NumField(p: map<Field, Value>, key: Field): real {
    if key in p && p[key].Num? then p[key].n else 0.0
  }

  /** What is drawn: nothing, a card sprite at some opacity, or a caption. */
  datatype Drawing =
    | Nothing
    | Sprite(glyph: nat, alpha: real)
    | Caption(text: Value, size: real, x: real, y: real, alpha: real)

  /** text at progress `t`: size, position and opacity interpolated between
      the filled `*From` and `*To` values. */
  function CaptionAt(p: map<Field, Value>, t: real): Drawing {
    var f := FillCaption(p);
    Caption(if TextField in f then f[TextField] else Str("undefined"),
            Utils.Lerp(NumField(f, SizeFrom), NumField(f, SizeTo), t),
            Utils.Lerp(NumField(f, XFrom), NumField(f, XTo), t),
            Utils.Lerp(NumField(f, YFrom), NumField(f, YTo), t),
            Utils.Lerp(NumField(f, AlphaFrom), NumField(f, AlphaTo), t))
  }

  // ---------------------------------------------------------------------------
  // The step functions

  /** What one call draws. pose draws the captured id at full opacity; flip
      draws the face FlipFace picks; hide fades while t < 1 and draws nothing
      from t = 1 on (or for an undefined t); text draws its caption (nothing
      for an undefined t, whose coordinates would be NaN); exec and wait draw
      nothing. */
  function Draw(call: Invocation): (r: Drawing)
    ensures r.Sprite? ==> call.kind == Pose || call.kind == Flip || call.kind == Hide
    ensures r.Sprite? ==> r.glyph == Glyph(IdOf(call.param)) || r.glyph == Glyph(-IdOf(call.param))
    ensures r.Sprite? && call.progress.At? && 0.0 <= call.progress.t ==> 0.0 < r.alpha <= 1.0
    ensures r.Caption? ==> call.kind == Text && call.param.CaptionParam? && call.progress.At?
    ensures call.kind == Pose || call.kind == Flip ==> r.Sprite? && r.alpha == 1.0
    ensures call.kind == Exec || call.kind == Wait ==> r == Nothing
  {
    var id := IdOf(call.param);
    match call.kind
    case Pose => Sprite(Glyph(id), 1.0)
    case Flip => Sprite(Glyph(FlipFace(call.progress, id)), 1.0)
    case Hide =>
      if call.progress.At? && call.progress.t < 1.0 then Sprite(Glyph(id), 1.0 - call.progress.t)
      else Nothing
    case Text =>
      if call.param.CaptionParam? && call.progress.At? then CaptionAt(call.param.fields, call.progress.t)
      else Nothing
    case Exec => Nothing
    case Wait => Nothing
  }

  /** exec calls its callback exactly when t === 1. */
  predicate Fires(call: Invocation) {
    call.kind == Exec && call.progress == At(1.0)
  }

  // ---------------------------------------------------------------------------
  // Properties

  /** An exec step fires on a tick exactly when its time runs out on that
      tick; in particular a step with an undefined or 0 duration never fires. */
  lemma ExecFiresWhenElapsed(s: SeqState, dt: nat)
    requires Ready(s)
    ensures Fires(Advance(s, dt).call) <==> Current(s).kind == Exec && Elapsed(s, dt)
  {
  }

  /** flip turns the card over: at t = 0 it shows the captured id and at
      t = 1 the opposite side. */
  lemma FlipTurnsOver(cardID: int)
    ensures Draw(Invocation(Flip, At(0.0), CardParam(cardID))) == Sprite(Glyph(cardID), 1.0)
    ensures Draw(Invocation(Flip, At(1.0), CardParam(cardID))) == Sprite(Glyph(-cardID), 1.0)
  {
  }

  /** hide draws the card exactly while t < 1, with opacity 1 - t, and never
      at the completing call. */
  lemma HideFades(call: Invocation)
    requires call.kind == Hide
    ensures Draw(call) != Nothing <==> call.progress.At? && call.progress.t < 1.0
    ensures call.progress == At(1.0) ==> Draw(call) == Nothing
  {
  }

  /** Filling keeps every given field and fills every missing `*To` with the
      (filled) matching `*From`. */
  lemma FillCaptionKeeps(p: map<Field, Value>)
    ensures forall k :: k in p ==> FillCaption(p)[k] == p[k]
    ensures forall k :: k in BaseDefaults && k !in p ==> FillCaption(p)[k] == BaseDefaults[k]
    ensures SizeTo !in p ==> FillCaption(p)[SizeTo] == FillCaption(p)[SizeFrom]
    ensures XTo !in p ==> FillCaption(p)[XTo] == FillCaption(p)[XFrom]
    ensures YTo !in p ==> FillCaption(p)[YTo] == FillCaption(p)[YFrom]
    ensures AlphaTo !in p ==> FillCaption(p)[AlphaTo] == FillCaption(p)[AlphaFrom]
  {
    var p1 := Utils.WithDefaults(p, BaseDefaults);
    var d := ToDefaults(p1);
    assert d.Keys == {SizeTo, AlphaTo, XTo, YTo} && d.Keys !! BaseDefaults.Keys;
    assert forall k :: k in d && k !in p ==> k !in p1;
  }

  /** text writes the filled fields back into its parameter object on every
      call; filling an already filled object changes nothing, so every tick
      sees the same caption as the first. */
  lemma FillCaptionIdempotent(p: map<Field, Value>)
    ensures FillCaption(FillCaption(p)) == FillCaption(p)
  {
    var f := FillCaption(p);
    var f1 := Utils.WithDefaults(f, BaseDefaults);
    assert f1 == f;
    assert Utils.WithDefaults(f1, ToDefaults(f1)) == f;
  }

  /** A caption given no `*To` value does not move, grow or fade. */
  lemma StaticCaption(p: map<Field, Value>, t: real)
    requires SizeTo !in p && XTo !in p && YTo !in p && AlphaTo !in p
    ensures CaptionAt(p, t) == CaptionAt(p, 0.0)
  {
    FillCaptionKeeps(p);
  }

  /** A caption comes to rest at its `xTo`, or at its `xFrom` when it has
      no `xTo`, and always shows its text. */
  lemma CaptionRestsAt(p: map<Field, Value>, x: real)
    requires TextField in p
    requires if XTo in p then p[XTo] == Num(x) else XFrom in p && p[XFrom] == Num(x)
    ensures CaptionAt(p, 1.0).x == x && CaptionAt(p, 1.0).text == p[TextField]
  {
    FillCaptionKeeps(p);
  }

  /** A caption starts at its `*From` values and ends at its `*To` values. */
  lemma CaptionEndpoints(p: map<Field, Value>)
    ensures var f := FillCaption(p);
      CaptionAt(p, 0.0).size == NumField(f, SizeFrom) && CaptionAt(p, 1.0).size == NumField(f, SizeTo)
      && CaptionAt(p, 0.0).x == NumField(f, XFrom) && CaptionAt(p, 1.0).x == NumField(f, XTo)
      && CaptionAt(p, 0.0).y == NumField(f, YFrom) && CaptionAt(p, 1.0).y == NumField(f, YTo)
      && CaptionAt(p, 0.0).alpha == NumField(f, AlphaFrom) && CaptionAt(p, 1.0).alpha == NumField(f, AlphaTo)
  {
  }

  /** A caption given only its text, xFrom = 10 and sizeFrom = 20 is drawn,
      at every progress, at x = 10 and the default y = 150, size 20, opaque. */
  lemma FromOnlyCaption(text: string, t: real)
    ensures CaptionAt(map[TextField := Str(text), XFrom := Num(10.0), SizeFrom := Num(20.0)], t)
      == Caption(Str(text), 20.0, 10.0, 150.0, 1.0)
  {
    var p := map[TextField := Str(text), XFrom := Num(10.0), SizeFrom := Num(20.0)];
    FillCaptionKeeps(p);
    var f := FillCaption(p);
    assert f[YFrom] == Num(150.0) && f[AlphaFrom] == Num(1.0);
  }
}
