/** The confluence score of an intent: a weighted score for each side and the gate that decides whether to fire. */
module ConfluenceScorers {
  import opened Common

  datatype Regime = Trending | Compressed | Ranging | Volatile | Unknown

  /** `shortComponents` and `microstructure` are None where the caller leaves them out. */
  datatype Input = Input(
    pair: string, side: TradeSide, regime: Regime, confidence: real,
    components: Option<map<string, real>>, shortComponents: Option<map<string, real>>, microstructure: Option<real>)

  datatype Score = Score(
    pair: string, longScore: int, shortScore: int, regime: Regime,
    components: map<string, real>, shortComponents: map<string, real>,
    maxScore: int, scoreSpread: int, fireGatePassed: bool, volatileExceptionApplied: bool)

  datatype Decision = Decision(
    shouldFire: bool, dominantSide: Option<TradeSide>, maxScore: int, scoreSpread: int, volatileExceptionApplied: bool)

  const FIRE_SCORE_THRESHOLD := 75
  const FIRE_SPREAD_THRESHOLD := 25
  const VOLATILE_MICROSTRUCTURE_EXCEPTION_THRESHOLD := 0.7

  function Weights(regime: Regime): seq<(string, real)> {
    match regime
    case Compressed =>
      [("confidence", 0.2), ("structure", 0.25), ("momentum", 0.15), ("microstructure", 0.25), ("risk", 0.15)]
    case Ranging =>
      [("confidence", 0.2), ("structure", 0.2), ("momentum", 0.2), ("microstructure", 0.2), ("risk", 0.2)]
    case Volatile =>
      [("confidence", 0.2), ("structure", 0.15), ("momentum", 0.2), ("microstructure", 0.3), ("risk", 0.15)]
    case _ =>
      [("confidence", 0.25), ("structure", 0.2), ("momentum", 0.2), ("microstructure", 0.2), ("risk", 0.15)]
  }

  function ClampContribution(x: real): (r: real)
    ensures -1.0 <= r <= 1.0
  {
    MaxR(-1.0, MinR(1.0, x))
  }

  function Contribution(components: map<string, real>, name: string): real {
    ClampContribution(if name in components then components[name] else 0.0)
  }

  /** A contribution in [-1, 1] as a number in [0, 100]. */
  function Share(contribution: real): real {
    (contribution + 1.0) / 2.0 * 100.0
  }

  /** That share of its weight. */
  function Term(contribution: real, weight: real): real {
    Share(contribution) * weight
  }

  function TotalWeight(ws: seq<(string, real)>): real {
    if ws == [] then 0.0 else TotalWeight(ws[..|ws| - 1]) + ws[|ws| - 1].1
  }

  function TotalScore(ws: seq<(string, real)>, components: map<string, real>): real {
    if ws == [] then 0.0
    else TotalScore(ws[..|ws| - 1], components) + Term(Contribution(components, ws[|ws| - 1].0), ws[|ws| - 1].1)
  }

  function RawScore(regime: Regime, components: map<string, real>): real {
    var total := TotalWeight(Weights(regime));
    if total <= 0.0 then 50.0 else TotalScore(Weights(regime), components) / total
  }

  /** The language's rounding: halves go up. */
  function Round(x: real): int {
    (x + 0.5).Floor
  }

  function ClampScore(x: real): int {
    if Round(x) < 0 then 0 else if Round(x) > 100 then 100 else Round(x)
  }

  function Normalize(components: map<string, real>): map<string, real> {
    map name | name in components :: ClampContribution(components[name])
  }

  function Negated(components: map<string, real>): map<string, real> {
    map name | name in components :: -components[name]
  }

  function Given(components: Option<map<string, real>>): map<string, real> {
    if components.Some? then components.value else map[]
  }

  function ConfidenceContribution(i: Input): real {
    var twice := MaxR(0.0, MinR(1.0, i.confidence)) * 2.0 - 1.0;
    if i.side == Short then -twice else twice
  }

  function LongComponents(i: Input): map<string, real> {
    Normalize(map["confidence" := ConfidenceContribution(i)] + Given(i.components)
              + (if i.microstructure.Some? then map["microstructure" := i.microstructure.value] else map[]))
  }

  function ShortComponents(i: Input): map<string, real> {
    Normalize(map["confidence" := -ConfidenceContribution(i)]
              + (if i.shortComponents.Some? then i.shortComponents.value else Negated(LongComponents(i))))
  }

  function Dominant(longScore: int, shortScore: int): Option<TradeSide> {
    if longScore > shortScore then Some(Long) else if shortScore > longScore then Some(Short) else None
  }

  predicate PrimaryGate(s: Score) {
    s.maxScore >= FIRE_SCORE_THRESHOLD && s.scoreSpread >= FIRE_SPREAD_THRESHOLD
  }

  predicate VolatileException(s: Score) {
    && s.regime == Volatile
    && s.maxScore >= FIRE_SCORE_THRESHOLD
    && MaxR(Abs(Contribution(s.components, "microstructure")), Abs(Contribution(s.shortComponents, "microstructure")))
       >= VOLATILE_MICROSTRUCTURE_EXCEPTION_THRESHOLD
  }

  function Decide(s: Score): Decision {
    Decision(PrimaryGate(s) || VolatileException(s), Dominant(s.longScore, s.shortScore), s.maxScore, s.scoreSpread,
             !PrimaryGate(s) && VolatileException(s))
  }

  function ScoreFrom(i: Input, longRaw: real, shortRaw: real): Score {
    var long, short := ClampScore(longRaw), ClampScore(shortRaw);
    var bare := Score(i.pair, long, short, i.regime, LongComponents(i), ShortComponents(i),
                      if long >= short then long else short, if long >= short then long - short else short - long,
                      false, false);
    bare.(fireGatePassed := Decide(bare).shouldFire, volatileExceptionApplied := Decide(bare).volatileExceptionApplied)
  }

  function ScoreOf(i: Input): Score {
    ScoreFrom(i, RawScore(i.regime, LongComponents(i)), RawScore(i.regime, ShortComponents(i)))
  }

  // ------------------------------------------------------------ the two sides mirror each other

  /** Every contribution of one side is the other's, negated. */
  ghost predicate Mirrored(a: map<string, real>, b: map<string, real>) {
    forall name: string :: Contribution(b, name) == -Contribution(a, name)
  }

  lemma TermBounds(c: real, w: real)
    requires -1.0 <= c <= 1.0 && w >= 0.0
    ensures 0.0 <= Term(c, w) <= w * 100.0
    ensures Term(c, w) + Term(-c, w) == w * 100.0
  {
    var share := Share(c);
    assert 0.0 <= share <= 100.0 && Share(-c) == 100.0 - share;
    assert share * w >= 0.0 && (100.0 - share) * w >= 0.0;
    assert (100.0 - share) * w == w * 100.0 - share * w;
  }

  ghost predicate NonNegative(ws: seq<(string, real)>) {
    forall k | 0 <= k < |ws| :: ws[k].1 >= 0.0
  }

  lemma {:induction false} TotalsMirror(ws: seq<(string, real)>, a: map<string, real>, b: map<string, real>)
    requires NonNegative(ws) && Mirrored(a, b)
    ensures TotalScore(ws, a) + TotalScore(ws, b) == TotalWeight(ws) * 100.0
  {
    if ws != [] {
      var n := |ws| - 1;
      TotalsMirror(ws[..n], a, b);
      assert Contribution(b, ws[n].0) == -Contribution(a, ws[n].0);
      TermBounds(Contribution(a, ws[n].0), ws[n].1);
    }
  }

  lemma {:induction false} TotalInRange(ws: seq<(string, real)>, a: map<string, real>)
    requires NonNegative(ws)
    ensures 0.0 <= TotalScore(ws, a) <= TotalWeight(ws) * 100.0
  {
    if ws != [] {
      var n := |ws| - 1;
      TotalInRange(ws[..n], a);
      TermBounds(Contribution(a, ws[n].0), ws[n].1);
    }
  }

  lemma FiveWeights(ws: seq<(string, real)>)
    requires |ws| == 5
    ensures TotalWeight(ws) == ws[0].1 + ws[1].1 + ws[2].1 + ws[3].1 + ws[4].1
  {
    assert ws[..4][..3] == ws[..3] && ws[..3][..2] == ws[..2] && ws[..2][..1] == ws[..1] && ws[..1][..0] == [];
    assert TotalWeight(ws[..1]) == ws[0].1;
    assert TotalWeight(ws[..2]) == ws[0].1 + ws[1].1;
    assert TotalWeight(ws[..3]) == TotalWeight(ws[..2]) + ws[2].1;
    assert TotalWeight(ws[..4]) == TotalWeight(ws[..3]) + ws[3].1;
  }

  /** The weights of every regime add up to one. */
  lemma WeightsAddUpToOne(regime: Regime)
    ensures TotalWeight(Weights(regime)) == 1.0
    ensures NonNegative(Weights(regime))
  {
    FiveWeights(Weights(regime));
  }

  lemma RawInRange(regime: Regime, a: map<string, real>)
    ensures 0.0 <= RawScore(regime, a) <= 100.0
  {
    WeightsAddUpToOne(regime);
    TotalInRange(Weights(regime), a);
  }

  lemma RawScoresMirror(regime: Regime, a: map<string, real>, b: map<string, real>)
    requires Mirrored(a, b)
    ensures RawScore(regime, a) + RawScore(regime, b) == 100.0
  {
    WeightsAddUpToOne(regime);
    TotalsMirror(Weights(regime), a, b);
  }

  /** Unless the caller gives its own short components, the two sides mirror each other. */
  lemma DefaultShortMirrors(i: Input)
    requires i.shortComponents == None
    ensures Mirrored(LongComponents(i), ShortComponents(i))
  {
    var a, b := LongComponents(i), ShortComponents(i);
    assert "confidence" in a;
    assert b.Keys == a.Keys;
    forall name: string ensures Contribution(b, name) == -Contribution(a, name) {
      if name in a {
        assert a[name] == ClampContribution(a[name]);
        assert b[name] == ClampContribution(-a[name]);
      }
    }
  }

  // ------------------------------------------------------------ the raw scores in terms of the input alone

  function Cut(x: real, lo: real, hi: real): real {
    if x < lo then lo else if x > hi then hi else x
  }

  /** A value as points: none at minus one and below, a hundred at one and above, even in between. */
  function Points(x: real): real {
    50.0 + 50.0 * Cut(x, -1.0, 1.0)
  }

  /** The confidence of the intent as a value for the long side: its own direction for LONG, the other for SHORT. */
  function SidedConfidence(i: Input): real {
    var c := Cut(i.confidence, 0.0, 1.0);
    if i.side == Long then 2.0 * c - 1.0 else 1.0 - 2.0 * c
  }

  /** What counts for the long side under a name: the microstructure of the call, else the component the call gives, else
      the confidence, else nothing. */
  function LongValue(i: Input, name: string): real {
    if name == "microstructure" && i.microstructure.Some? then i.microstructure.value
    else if i.components.Some? && name in i.components.value then i.components.value[name]
    else if name == "confidence" then SidedConfidence(i)
    else 0.0
  }

  /** For the short side: the short component the call gives, or, if it gives none at all, the opposite of the long
      value. */
  function ShortValue(i: Input, name: string): real {
    if i.shortComponents == None then -LongValue(i, name)
    else if name in i.shortComponents.value then i.shortComponents.value[name]
    else if name == "confidence" then -SidedConfidence(i)
    else 0.0
  }

  /** Five numbers of points under the weights of a regime. */
  function Weighed(regime: Regime, confidence: real, structure: real, momentum: real, micro: real, risk: real): real {
    match regime
    case Trending => 0.25 * confidence + 0.2 * structure + 0.2 * momentum + 0.2 * micro + 0.15 * risk
    case Compressed => 0.2 * confidence + 0.25 * structure + 0.15 * momentum + 0.25 * micro + 0.15 * risk
    case Ranging => 0.2 * confidence + 0.2 * structure + 0.2 * momentum + 0.2 * micro + 0.2 * risk
    case Volatile => 0.2 * confidence + 0.15 * structure + 0.2 * momentum + 0.3 * micro + 0.15 * risk
    case Unknown => 0.25 * confidence + 0.2 * structure + 0.2 * momentum + 0.2 * micro + 0.15 * risk
  }

  function LongPoints(i: Input): real {
    Weighed(i.regime, Points(LongValue(i, "confidence")), Points(LongValue(i, "structure")), Points(LongValue(i, "momentum")),
            Points(LongValue(i, "microstructure")), Points(LongValue(i, "risk")))
  }

  function ShortPoints(i: Input): real {
    Weighed(i.regime, Points(ShortValue(i, "confidence")), Points(ShortValue(i, "structure")), Points(ShortValue(i, "momentum")),
            Points(ShortValue(i, "microstructure")), Points(ShortValue(i, "risk")))
  }

  /** The value under a name counts as `v` does. */
  predicate CountsAs(components: map<string, real>, name: string, v: real) {
    Contribution(components, name) == Cut(v, -1.0, 1.0)
  }

  lemma FiveTerms(ws: seq<(string, real)>, a: map<string, real>)
    requires |ws| == 5
    ensures TotalScore(ws, a) == Term(Contribution(a, ws[0].0), ws[0].1) + Term(Contribution(a, ws[1].0), ws[1].1)
      + Term(Contribution(a, ws[2].0), ws[2].1) + Term(Contribution(a, ws[3].0), ws[3].1) + Term(Contribution(a, ws[4].0), ws[4].1)
  {
    assert ws[..4][..3] == ws[..3] && ws[..3][..2] == ws[..2] && ws[..2][..1] == ws[..1] && ws[..1][..0] == [];
    assert TotalScore(ws[..1], a) == Term(Contribution(a, ws[0].0), ws[0].1);
    assert TotalScore(ws[..2], a) == TotalScore(ws[..1], a) + Term(Contribution(a, ws[1].0), ws[1].1);
    assert TotalScore(ws[..3], a) == TotalScore(ws[..2], a) + Term(Contribution(a, ws[2].0), ws[2].1);
    assert TotalScore(ws[..4], a) == TotalScore(ws[..3], a) + Term(Contribution(a, ws[3].0), ws[3].1);
  }

  lemma TermIsPoints(v: real, w: real)
    ensures Term(Cut(v, -1.0, 1.0), w) == Points(v) * w
  {
    assert Share(Cut(v, -1.0, 1.0)) == Points(v);
  }

  lemma RawIsWeighed(regime: Regime, a: map<string, real>, confidence: real, structure: real, momentum: real, micro: real, risk: real)
    requires CountsAs(a, "confidence", confidence) && CountsAs(a, "structure", structure) && CountsAs(a, "momentum", momentum)
    requires CountsAs(a, "microstructure", micro) && CountsAs(a, "risk", risk)
    ensures RawScore(regime, a)
            == Weighed(regime, Points(confidence), Points(structure), Points(momentum), Points(micro), Points(risk))
  {
    RawIsTotal(regime, a);
    TotalIsSum(Weights(regime), a, confidence, structure, momentum, micro, risk);
    WeightsWeigh(regime, Points(confidence), Points(structure), Points(momentum), Points(micro), Points(risk));
  }

  lemma RawIsTotal(regime: Regime, a: map<string, real>)
    ensures RawScore(regime, a) == TotalScore(Weights(regime), a)
  {
    WeightsAddUpToOne(regime);
  }

  lemma TotalIsSum(
      ws: seq<(string, real)>, a: map<string, real>, confidence: real, structure: real, momentum: real, micro: real, risk: real)
    requires |ws| == 5 && CountsAs(a, ws[0].0, confidence) && CountsAs(a, ws[1].0, structure) && CountsAs(a, ws[2].0, momentum)
    requires CountsAs(a, ws[3].0, micro) && CountsAs(a, ws[4].0, risk)
    ensures TotalScore(ws, a) == Points(confidence) * ws[0].1 + Points(structure) * ws[1].1 + Points(momentum) * ws[2].1
                                 + Points(micro) * ws[3].1 + Points(risk) * ws[4].1
  {
    OneTerm(ws, a, 0, confidence);
    OneTerm(ws, a, 1, structure);
    OneTerm(ws, a, 2, momentum);
    OneTerm(ws, a, 3, micro);
    OneTerm(ws, a, 4, risk);
    SumOfFive(ws, a, Points(confidence) * ws[0].1, Points(structure) * ws[1].1, Points(momentum) * ws[2].1,
              Points(micro) * ws[3].1, Points(risk) * ws[4].1);
  }

  predicate TermIs(ws: seq<(string, real)>, a: map<string, real>, k: nat, t: real)
    requires k < |ws|
  {
    Term(Contribution(a, ws[k].0), ws[k].1) == t
  }

  lemma OneTerm(ws: seq<(string, real)>, a: map<string, real>, k: nat, v: real)
    requires k < |ws| && CountsAs(a, ws[k].0, v)
    ensures TermIs(ws, a, k, Points(v) * ws[k].1)
  {
    TermIsPoints(v, ws[k].1);
  }

  lemma SumOfFive(ws: seq<(string, real)>, a: map<string, real>, p: real, q: real, r: real, s: real, t: real)
    requires |ws| == 5
    requires TermIs(ws, a, 0, p) && TermIs(ws, a, 1, q) && TermIs(ws, a, 2, r) && TermIs(ws, a, 3, s) && TermIs(ws, a, 4, t)
    ensures TotalScore(ws, a) == p + q + r + s + t
  {
    FiveTerms(ws, a);
  }

  lemma WeightsWeigh(regime: Regime, a: real, b: real, c: real, d: real, e: real)
    ensures var ws := Weights(regime);
      a * ws[0].1 + b * ws[1].1 + c * ws[2].1 + d * ws[3].1 + e * ws[4].1 == Weighed(regime, a, b, c, d, e)
  {
  }

  lemma LongCounts(i: Input, name: string)
    ensures CountsAs(LongComponents(i), name, LongValue(i, name))
  {
  }

  lemma ShortCounts(i: Input, name: string)
    ensures CountsAs(ShortComponents(i), name, ShortValue(i, name))
  {
    LongCounts(i, name);
    if i.shortComponents == None { DefaultShortMirrors(i); }
  }

  /** The raw score of the long side is the weighed points of its five values. */
  lemma LongRawIs(i: Input)
    ensures RawScore(i.regime, LongComponents(i)) == LongPoints(i)
  {
    LongCounts(i, "confidence");
    LongCounts(i, "structure");
    LongCounts(i, "momentum");
    LongCounts(i, "microstructure");
    LongCounts(i, "risk");
    RawIsWeighed(i.regime, LongComponents(i), LongValue(i, "confidence"), LongValue(i, "structure"), LongValue(i, "momentum"),
                 LongValue(i, "microstructure"), LongValue(i, "risk"));
  }

  lemma ShortRawIs(i: Input)
    ensures RawScore(i.regime, ShortComponents(i)) == ShortPoints(i)
  {
    ShortCounts(i, "confidence");
    ShortCounts(i, "structure");
    ShortCounts(i, "momentum");
    ShortCounts(i, "microstructure");
    ShortCounts(i, "risk");
    RawIsWeighed(i.regime, ShortComponents(i), ShortValue(i, "confidence"), ShortValue(i, "structure"), ShortValue(i, "momentum"),
                 ShortValue(i, "microstructure"), ShortValue(i, "risk"));
  }

  /** The nearest integer, halves up. */
  predicate Rounds(n: int, x: real) {
    n as real - 0.5 <= x < n as real + 0.5
  }

  lemma ScoreRounds(i: Input)
    ensures var s := ScoreOf(i);
      && Rounds(s.longScore, LongPoints(i)) && Rounds(s.shortScore, ShortPoints(i)) && s.pair == i.pair && s.regime == i.regime
  {
    LongRawIs(i);
    ShortRawIs(i);
    RawInRange(i.regime, LongComponents(i));
    RawInRange(i.regime, ShortComponents(i));
    ClampRounds(LongPoints(i));
    ClampRounds(ShortPoints(i));
  }

  /** A score that says no more than its two sides and its components. */
  predicate Bare(s: Score) {
    && s.maxScore == (if s.longScore >= s.shortScore then s.longScore else s.shortScore)
    && s.scoreSpread == (if s.longScore >= s.shortScore then s.longScore - s.shortScore else s.shortScore - s.longScore)
  }

  lemma DecisionMeans(s: Score, a: real, b: real)
    requires Bare(s) && CountsAs(s.components, "microstructure", a) && CountsAs(s.shortComponents, "microstructure", b)
    ensures var d := Decide(s);
      && d.maxScore == s.maxScore && d.scoreSpread == s.scoreSpread
      && d.dominantSide == (if s.longScore > s.shortScore then Some(Long) else if s.longScore < s.shortScore then Some(Short) else None)
      && (d.shouldFire <==> d.maxScore >= 75 && (d.scoreSpread >= 25 || (s.regime == Volatile && FarOut(a, b))))
      && (d.volatileExceptionApplied <==> d.shouldFire && d.scoreSpread < 25)
  {
  }

  lemma ScoreIsBare(i: Input)
    ensures var s, d := ScoreOf(i), Decide(ScoreOf(i));
      && Bare(s) && s.components == LongComponents(i) && s.shortComponents == ShortComponents(i) && s.regime == i.regime
      && s.fireGatePassed == d.shouldFire && s.volatileExceptionApplied == d.volatileExceptionApplied
  {
  }

  /** What the score says, and when the gate opens, in terms of the input alone. */
  lemma ScoreMeans(i: Input)
    ensures var s, d := ScoreOf(i), Decide(ScoreOf(i));
      && Rounds(s.longScore, LongPoints(i)) && Rounds(s.shortScore, ShortPoints(i)) && s.pair == i.pair && Bare(s)
      && s.fireGatePassed == d.shouldFire && s.volatileExceptionApplied == d.volatileExceptionApplied
      && d.maxScore == s.maxScore && d.scoreSpread == s.scoreSpread
      && d.dominantSide == (if s.longScore > s.shortScore then Some(Long) else if s.longScore < s.shortScore then Some(Short) else None)
      && (d.shouldFire <==> d.maxScore >= 75 && (d.scoreSpread >= 25 || (i.regime == Volatile && Extreme(i))))
      && (d.volatileExceptionApplied <==> d.shouldFire && d.scoreSpread < 25)
  {
    ScoreRounds(i);
    ScoreIsBare(i);
    LongCounts(i, "microstructure");
    ShortCounts(i, "microstructure");
    DecisionMeans(ScoreOf(i), LongValue(i, "microstructure"), ShortValue(i, "microstructure"));
  }

  /** One of two values is at least seven tenths either way. */
  predicate FarOut(a: real, b: real) {
    a >= 0.7 || a <= -0.7 || b >= 0.7 || b <= -0.7
  }

  /** The microstructure of one of the sides is. */
  predicate Extreme(i: Input) {
    FarOut(LongValue(i, "microstructure"), ShortValue(i, "microstructure"))
  }

  lemma ClampRounds(x: real)
    requires 0.0 <= x <= 100.0
    ensures Rounds(ClampScore(x), x)
  {
    var f := (x + 0.5).Floor;
    assert f as real <= x + 0.5 < f as real + 1.0;
  }

  /** The same call for the other side, with everything it gives turned round. */
  predicate TurnedRound(i: Input, j: Input) {
    && i.side != j.side && i.regime == j.regime && i.confidence == j.confidence
    && (match i.microstructure
        case None => j.microstructure == None
        case Some(x) => j.microstructure == Some(-x))
    && (match i.components
        case None => j.components == None
        case Some(m) => j.components.Some? && j.components.value.Keys == m.Keys
                        && forall name | name in m :: j.components.value[name] == -m[name])
  }

  /** The scorer does not prefer a side: turned round, the call's long points are what is missing to a hundred. */
  lemma SidesAreAlike(i: Input, j: Input)
    requires TurnedRound(i, j)
    ensures LongPoints(i) + LongPoints(j) == 100.0
    ensures RawScore(i.regime, LongComponents(i)) + RawScore(j.regime, LongComponents(j)) == 100.0
  {
    PointsTurned(i, j, "confidence");
    PointsTurned(i, j, "structure");
    PointsTurned(i, j, "momentum");
    PointsTurned(i, j, "microstructure");
    PointsTurned(i, j, "risk");
    WeighedTurned(i.regime, Points(LongValue(i, "confidence")), Points(LongValue(i, "structure")), Points(LongValue(i, "momentum")),
                  Points(LongValue(i, "microstructure")), Points(LongValue(i, "risk")));
    LongRawIs(i);
    LongRawIs(j);
  }

  lemma PointsTurned(i: Input, j: Input, name: string)
    requires TurnedRound(i, j)
    ensures Points(LongValue(j, name)) == 100.0 - Points(LongValue(i, name))
  {
    assert LongValue(j, name) == -LongValue(i, name);
  }

  lemma WeighedTurned(regime: Regime, a: real, b: real, c: real, d: real, e: real)
    ensures Weighed(regime, a, b, c, d, e) + Weighed(regime, 100.0 - a, 100.0 - b, 100.0 - c, 100.0 - d, 100.0 - e) == 100.0
  {
  }

  // ------------------------------------------------------------ the gate

  /** What rounding makes of two raw scores that add up to one hundred. */
  lemma RoundedMirror(x: real)
    requires 0.0 <= x <= 100.0
    ensures 0 <= Round(x) <= 100 && 0 <= Round(100.0 - x) <= 100
    ensures ClampScore(x) == Round(x) && ClampScore(100.0 - x) == Round(100.0 - x)
    ensures Round(x) + Round(100.0 - x) == if (x + 0.5).Floor as real == x + 0.5 then 101 else 100
  {
    var f := (x + 0.5).Floor;
    assert f as real <= x + 0.5 < f as real + 1.0;
    var g := (100.0 - x + 0.5).Floor;
    assert g as real <= 100.0 - x + 0.5 < g as real + 1.0;
    var sum := f + g;
    assert sum as real == f as real + g as real;
    assert 99.0 < sum as real <= 101.0;
    assert sum == 100 || sum == 101;
  }

  /** The raw long score. */
  function LongRaw(i: Input): real {
    RawScore(i.regime, LongComponents(i))
  }

  /** Both scores of an input without own short components: the raw ones add up to one hundred, the rounded ones
      to one hundred, or to one more exactly when the raw score lies halfway between integers. */
  lemma ScoresAddUp(i: Input)
    requires i.shortComponents == None
    ensures ScoreOf(i).longScore == Round(LongRaw(i)) && ScoreOf(i).shortScore == Round(100.0 - LongRaw(i))
    ensures 0 <= ScoreOf(i).longScore <= 100 && 0 <= ScoreOf(i).shortScore <= 100
    ensures ScoreOf(i).longScore + ScoreOf(i).shortScore
            == if (LongRaw(i) + 0.5).Floor as real == LongRaw(i) + 0.5 then 101 else 100
  {
    DefaultShortMirrors(i);
    RawInRange(i.regime, LongComponents(i));
    RawScoresMirror(i.regime, LongComponents(i), ShortComponents(i));
    RoundedMirror(LongRaw(i));
  }

  lemma ThresholdOnRaw(x: real)
    ensures Round(x) >= FIRE_SCORE_THRESHOLD <==> x >= 74.5
  {
    var f := (x + 0.5).Floor;
    assert f as real <= x + 0.5 < f as real + 1.0;
  }

  /** For every score the pipeline computes the spread condition and the volatile exception never decide: the gate
      opens exactly when the better side rounds to seventy-five, that is when the long raw score leaves (25.5, 74.5).
      An open gate has a dominant side, and a spread of at least forty-nine. */
  lemma GateIsOneThreshold(i: Input)
    requires i.shortComponents == None
    ensures var d := Decide(ScoreOf(i));
      && (d.shouldFire <==> d.maxScore >= FIRE_SCORE_THRESHOLD)
      && !d.volatileExceptionApplied && !ScoreOf(i).volatileExceptionApplied
      && (d.shouldFire ==> d.scoreSpread >= 49)
      && (d.shouldFire && d.dominantSide == Some(Long) <==> LongPoints(i) >= 74.5)
      && (d.shouldFire && d.dominantSide == Some(Short) <==> LongPoints(i) <= 25.5)
      && (d.shouldFire ==> d.dominantSide.Some?)
      && ScoreOf(i).fireGatePassed == d.shouldFire
  {
    ScoresAddUp(i);
    LongRawIs(i);
    ThresholdOnRaw(LongRaw(i));
    ThresholdOnRaw(100.0 - LongRaw(i));
  }

  lemma {:induction false} TotalAtFull(ws: seq<(string, real)>, a: map<string, real>)
    requires forall k | 0 <= k < |ws| :: ws[k].0 in a && a[ws[k].0] == 1.0
    ensures TotalScore(ws, a) == TotalWeight(ws) * 100.0
  {
    if ws != [] {
      TotalAtFull(ws[..|ws| - 1], a);
    }
  }

  /** A caller that supplies its own short components can score both sides one hundred: then only the volatile
      exception opens the gate, and no side dominates. */
  lemma ExplicitShortComponentsCanDecide(i: Input, full: map<string, real>)
    requires full == map["confidence" := 1.0, "structure" := 1.0, "momentum" := 1.0, "microstructure" := 1.0, "risk" := 1.0]
    requires i == Input("BTC", Long, Volatile, 1.0, Some(full), Some(full), None)
    ensures Decide(ScoreOf(i)) == Decision(true, None, 100, 0, true)
  {
    var a, b := LongComponents(i), ShortComponents(i);
    WeightsAddUpToOne(Volatile);
    assert a == full && b == full;
    TotalAtFull(Weights(Volatile), full);
    assert Round(100.0) == 100;
    assert Contribution(full, "microstructure") == 1.0;
  }

  // ------------------------------------------------------------ the component's own form

  method WeightedComponentScore(regime: Regime, components: map<string, real>) returns (r: real)
    ensures r == RawScore(regime, components)
    ensures 0.0 <= r <= 100.0
  {
    var ws := Weights(regime);
    var score, totalWeight := 0.0, 0.0;
    for k := 0 to |ws|
      invariant totalWeight == TotalWeight(ws[..k])
      invariant score == TotalScore(ws[..k], components)
    {
      assert ws[..k + 1][..k] == ws[..k];
      totalWeight := totalWeight + ws[k].1;
      var contribution := ClampContribution(if ws[k].0 in components then components[ws[k].0] else 0.0);
      score := score + Term(contribution, ws[k].1);
    }
    assert ws[..|ws|] == ws;
    RawInRange(regime, components);
    if totalWeight <= 0.0 {
      return 50.0;
    }
    return score / totalWeight;
  }

  class ConfluenceScorer {
    var byPair: map<string, Score>

    constructor ()
      ensures byPair == map[]
    {
      byPair := map[];
    }

    method ScorePair(i: Input) returns (score: Score)
      modifies this
      ensures score == ScoreOf(i)
      ensures byPair == old(byPair)[i.pair := score]
    {
      var long := WeightedComponentScore(i.regime, LongComponents(i));
      var short := WeightedComponentScore(i.regime, ShortComponents(i));
      score := ScoreFrom(i, long, short);
      byPair := byPair[i.pair := score];
    }

    method DecisionFor(pair: string) returns (d: Option<Decision>)
      ensures d == if pair in byPair then Some(Decide(byPair[pair])) else None
    {
      return if pair in byPair then Some(Decide(byPair[pair])) else None;
    }
  }
}
