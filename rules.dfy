/** The four rewrite passes of index.ts, stated as pure functions.

    Every pass but the syllable-ending rule scans the pairs (i, i + 1) from
    left to right. Pair (i, i + 1) writes only the coda of unit i and the
    onset of unit i + 1, and it reads only the coda of unit i and unit i + 1.
    No earlier pair of the same scan writes any of these, so a scan equals a
    map over the pairs of the original sequence (Pairwise below); the in-place
    loops of module Passes are proved equal to it.
 */
module Rules {
  import opened Hangul

  /** What a pass writes for one pair: the new coda of unit i and the new
      onset of unit i + 1. */
  datatype Rewrite = Rewrite(jong: Jong, cho: char)

  /** A pair rule sees the coda of unit i and the whole of unit i + 1. */
  type PairRule = (Jong, Krch) -> Rewrite

  /** The rewrite that changes nothing. */
  function Keep(jong: Jong, next: Krch): Rewrite {
    Rewrite(jong, next.choSeong)
  }

  /** The sequence after the first `done` pairs of a scan have been
      rewritten in place. */
  function RewrittenUpTo(s: seq<Krch>, rule: PairRule, done: nat): seq<Krch>
    requires done == 0 || done < |s|
  {
    seq(|s|, k requires 0 <= k < |s| =>
      Krch(if 0 < k <= done then rule(s[k - 1].jongSeong, s[k]).cho else s[k].choSeong,
           s[k].jungSeong,
           if k < done then rule(s[k].jongSeong, s[k + 1]).jong else s[k].jongSeong))
  }

  /** A whole scan: every pair rewritten from the original values. */
  function Pairwise(s: seq<Krch>, rule: PairRule): (t: seq<Krch>)
    ensures |t| == |s|
    ensures forall k :: 0 <= k < |s| ==> t[k].jungSeong == s[k].jungSeong
  {
    RewrittenUpTo(s, rule, if |s| == 0 then 0 else |s| - 1)
  }

  /** What a scan leaves at pair (k, k + 1): the rule applied to the original
      coda of unit k and the original unit k + 1. */
  lemma PairwiseAt(s: seq<Krch>, rule: PairRule, k: nat)
    requires k + 1 < |s|
    ensures Rewrite(Pairwise(s, rule)[k].jongSeong, Pairwise(s, rule)[k + 1].choSeong)
            == rule(s[k].jongSeong, s[k + 1])
  {
  }

  /** The first onset and the last coda are never rewritten. */
  lemma PairwiseEnds(s: seq<Krch>, rule: PairRule)
    requires |s| > 0
    ensures Pairwise(s, rule)[0].choSeong == s[0].choSeong
    ensures Pairwise(s, rule)[|s| - 1].jongSeong == s[|s| - 1].jongSeong
  {
  }

  /** The rule changes nothing at pair (k, k + 1). */
  predicate IdleAt(s: seq<Krch>, rule: PairRule, k: nat)
    requires k + 1 < |s|
  {
    rule(s[k].jongSeong, s[k + 1]) == Keep(s[k].jongSeong, s[k + 1])
  }

  /** Scans of two and three units, written out. */
  lemma PairwiseOfTwo(x: Krch, y: Krch, rule: PairRule)
    ensures var w := rule(x.jongSeong, y);
            Pairwise([x, y], rule) == [x.(jongSeong := w.jong), y.(choSeong := w.cho)]
  {
    PairwiseAt([x, y], rule, 0);
    PairwiseEnds([x, y], rule);
  }

  lemma PairwiseOfThree(x: Krch, y: Krch, z: Krch, rule: PairRule)
    ensures var (v, w) := (rule(x.jongSeong, y), rule(y.jongSeong, z));
            Pairwise([x, y, z], rule)
            == [x.(jongSeong := v.jong), y.(choSeong := v.cho, jongSeong := w.jong), z.(choSeong := w.cho)]
  {
    PairwiseAt([x, y, z], rule, 0);
    PairwiseAt([x, y, z], rule, 1);
    PairwiseEnds([x, y, z], rule);
  }

  /** A scan in which no pair's rule changes anything leaves the sequence
      as it was. */
  lemma PairwiseIdle(s: seq<Krch>, rule: PairRule)
    requires forall k: nat :: k + 1 < |s| ==> IdleAt(s, rule, k)
    ensures Pairwise(s, rule) == s
  {
    var t := Pairwise(s, rule);
    forall k | 0 <= k < |s|
      ensures t[k] == s[k]
    {
      PairwiseEnds(s, rule);
      if k + 1 < |s| {
        PairwiseAt(s, rule, k);
        assert IdleAt(s, rule, k);
      }
      if k > 0 {
        PairwiseAt(s, rule, k - 1);
        assert IdleAt(s, rule, k - 1);
      }
    }
  }

  // ---------------------------------------------------------------- palatalization

  const PalatalVowels: set<char> := {'ㅣ', 'ㅑ', 'ㅕ', 'ㅛ', 'ㅠ', 'ㅒ', 'ㅖ'}

  /** The skip test of palatalization as the code has it: the nucleus of unit
      i + 1 is not a front vowel AND its coda is not the empty string. A null
      coda is not the empty string, so a coda on unit i + 1 never blocks. */
  predicate PalatalSkip(next: Krch) {
    next.jungSeong !in PalatalVowels && next.jongSeong != Cleared
  }

  function PalatalRule(jong: Jong, next: Krch): Rewrite {
    if PalatalSkip(next) then Keep(jong, next)
    else match jong
      case Final('ㄷ') =>
        if next.choSeong == 'ㅇ' then Rewrite(Cleared, 'ㅈ')
        else if next.choSeong == 'ㅎ' then Rewrite(Cleared, 'ㅊ')
        else Keep(jong, next)
      case Final('ㅌ') => Rewrite(Cleared, 'ㅊ')
      case Final('ㄾ') => Rewrite(Final('ㄹ'), 'ㅊ')
      case _ => Keep(jong, next)
  }

  function Palatalized(s: seq<Krch>): seq<Krch> {
    Pairwise(s, PalatalRule)
  }

  /** Palatalization pair by pair: untouched when skipped, otherwise the
      coda ㅌ, ㄾ or (before ㅇ or ㅎ) ㄷ moves into an affricate onset. */
  lemma PalatalizationPair(s: seq<Krch>, k: nat)
    requires k + 1 < |s|
    ensures var r := Palatalized(s);
            var (jong, cho) := (s[k].jongSeong, s[k + 1].choSeong);
            var (jong', cho') := (r[k].jongSeong, r[k + 1].choSeong);
            if PalatalSkip(s[k + 1]) then jong' == jong && cho' == cho
            else if jong == Final('ㅌ') then jong' == Cleared && cho' == 'ㅊ'
            else if jong == Final('ㄾ') then jong' == Final('ㄹ') && cho' == 'ㅊ'
            else if jong == Final('ㄷ') && cho == 'ㅇ' then jong' == Cleared && cho' == 'ㅈ'
            else if jong == Final('ㄷ') && cho == 'ㅎ' then jong' == Cleared && cho' == 'ㅊ'
            else jong' == jong && cho' == cho
  {
    PairwiseAt(s, PalatalRule, k);
  }

  /** Whatever palatalization changes, it changes a coda ㄷ, ㅌ or ㄾ before
      a front vowel (or an empty-string coda) into an empty coda or ㄹ, and the
      following onset into ㅈ or ㅊ. */
  lemma PalatalizationChangesOnly(s: seq<Krch>, k: nat)
    requires k + 1 < |s|
    ensures var r := Palatalized(s);
            r[k].jongSeong != s[k].jongSeong || r[k + 1].choSeong != s[k + 1].choSeong
            ==> !PalatalSkip(s[k + 1])
                && s[k].jongSeong in {Final('ㄷ'), Final('ㅌ'), Final('ㄾ')}
                && r[k].jongSeong in {Cleared, Final('ㄹ')}
                && r[k + 1].choSeong in {'ㅈ', 'ㅊ'}
  {
    PairwiseAt(s, PalatalRule, k);
  }

  /** After palatalization, no pair it inspects still ends in ㅌ or ㄾ, and a
      remaining ㄷ is not followed by ㅇ or ㅎ. */
  lemma PalatalizationComplete(s: seq<Krch>, k: nat)
    requires k + 1 < |s| && !PalatalSkip(s[k + 1])
    ensures var r := Palatalized(s);
            r[k].jongSeong != Final('ㅌ') && r[k].jongSeong != Final('ㄾ')
            && (r[k].jongSeong == Final('ㄷ') ==> r[k + 1].choSeong != 'ㅇ' && r[k + 1].choSeong != 'ㅎ')
  {
    PairwiseAt(s, PalatalRule, k);
    PalatalRuleComplete(s[k].jongSeong, s[k + 1]);
  }

  lemma PalatalRuleComplete(jong: Jong, next: Krch)
    requires !PalatalSkip(next)
    ensures var w := PalatalRule(jong, next);
            w.jong != Final('ㅌ') && w.jong != Final('ㄾ')
            && (w.jong == Final('ㄷ') ==> w.cho != 'ㅇ' && w.cho != 'ㅎ')
  {
  }

  /** On a unit whose coda is not the empty string (every unit parseKorean
      produces), the skip test reduces to "the nucleus is not a front vowel". */
  lemma PalatalSkipOnDecoded(next: Krch)
    requires next.jongSeong != Cleared
    ensures PalatalSkip(next) <==> next.jungSeong !in PalatalVowels
  {
  }

  /** Unlike the other passes, palatalization is not idempotent: pair (1, 2)
      clears the coda of unit 1, after which pair (0, 1) is no longer skipped,
      so a second pass moves the coda ㄷ of unit 0. */
  lemma PalatalizationNotIdempotent()
    ensures var s := [Krch('ㄱ', 'ㅜ', Final('ㄷ')), Krch('ㅇ', 'ㅏ', Final('ㅌ')), Krch('ㅇ', 'ㅣ', Absent)];
            Palatalized(Palatalized(s)) != Palatalized(s)
  {
    var s := [Krch('ㄱ', 'ㅜ', Final('ㄷ')), Krch('ㅇ', 'ㅏ', Final('ㅌ')), Krch('ㅇ', 'ㅣ', Absent)];
    var once := [Krch('ㄱ', 'ㅜ', Final('ㄷ')), Krch('ㅇ', 'ㅏ', Cleared), Krch('ㅊ', 'ㅣ', Absent)];
    PairwiseOfThree(s[0], s[1], s[2], PalatalRule);
    assert Palatalized(s) == once;
    PairwiseOfThree(once[0], once[1], once[2], PalatalRule);
    assert Palatalized(once)[0].jongSeong == Cleared;
  }

  // ---------------------------------------------------------------- aspiration

  function AspiratedOnset(c: char): char {
    match c
    case 'ㄱ' => 'ㅋ'
    case 'ㄷ' => 'ㅌ'
    case 'ㅂ' => 'ㅍ'
    case 'ㅈ' => 'ㅊ'
    case _ => c
  }

  function AspirationRule(jong: Jong, next: Krch): Rewrite {
    if next.choSeong == 'ㅎ' then
      match jong
      case Final('ㄱ') => Rewrite(Cleared, 'ㅋ')
      case Final('ㄷ') => Rewrite(Cleared, 'ㅌ')
      case Final('ㅂ') => Rewrite(Cleared, 'ㅍ')
      case Final('ㅈ') => Rewrite(Cleared, 'ㅊ')
      case Final('ㄲ') => Rewrite(Final('ㄱ'), 'ㅋ')
      case Final('ㄵ') => Rewrite(Final('ㄴ'), 'ㅊ')
      case Final('ㄺ') => Rewrite(Final('ㄹ'), 'ㅋ')
      case Final('ㄼ') => Rewrite(Final('ㄹ'), 'ㅍ')
      case _ => Keep(jong, next)
    else if jong == Final('ㅎ') || jong == Final('ㄶ') || jong == Final('ㅀ') then
      var reduced := match jong
        case Final('ㅎ') => Cleared
        case Final('ㄶ') => Final('ㄴ')
        case _ => Final('ㄹ');
      Rewrite(reduced, AspiratedOnset(next.choSeong))
    else Keep(jong, next)
  }

  function Aspirated(s: seq<Krch>): seq<Krch> {
    Pairwise(s, AspirationRule)
  }

  /** Aspiration as a table, pair by pair: before the onset ㅎ the codas ㄱ,
      ㄷ, ㅂ, ㅈ, ㄲ, ㄵ, ㄺ and ㄼ give up their stop, which merges with ㅎ
      into the aspirate; the codas ㅎ, ㄶ and ㅀ lose their ㅎ before any
      other onset, which becomes aspirate when it is ㄱ, ㄷ, ㅂ or ㅈ;
      everything else stays. (jong, cho) is the pair before the pass and
      (jong', cho') after it. */
  predicate AspirationTable(jong: Jong, cho: char, jong': Jong, cho': char) {
    if cho == 'ㅎ' then
      (jong == Final('ㄱ') ==> jong' == Cleared && cho' == 'ㅋ')
      && (jong == Final('ㄷ') ==> jong' == Cleared && cho' == 'ㅌ')
      && (jong == Final('ㅂ') ==> jong' == Cleared && cho' == 'ㅍ')
      && (jong == Final('ㅈ') ==> jong' == Cleared && cho' == 'ㅊ')
      && (jong == Final('ㄲ') ==> jong' == Final('ㄱ') && cho' == 'ㅋ')
      && (jong == Final('ㄵ') ==> jong' == Final('ㄴ') && cho' == 'ㅊ')
      && (jong == Final('ㄺ') ==> jong' == Final('ㄹ') && cho' == 'ㅋ')
      && (jong == Final('ㄼ') ==> jong' == Final('ㄹ') && cho' == 'ㅍ')
      && (jong !in {Final('ㄱ'), Final('ㄷ'), Final('ㅂ'), Final('ㅈ'),
                    Final('ㄲ'), Final('ㄵ'), Final('ㄺ'), Final('ㄼ')}
          ==> jong' == jong && cho' == cho)
    else
      (jong == Final('ㅎ') ==> jong' == Cleared)
      && (jong == Final('ㄶ') ==> jong' == Final('ㄴ'))
      && (jong == Final('ㅀ') ==> jong' == Final('ㄹ'))
      && (jong in {Final('ㅎ'), Final('ㄶ'), Final('ㅀ')} ==>
            (cho == 'ㄱ' ==> cho' == 'ㅋ') && (cho == 'ㄷ' ==> cho' == 'ㅌ')
            && (cho == 'ㅂ' ==> cho' == 'ㅍ') && (cho == 'ㅈ' ==> cho' == 'ㅊ')
            && (cho !in {'ㄱ', 'ㄷ', 'ㅂ', 'ㅈ'} ==> cho' == cho))
      && (jong !in {Final('ㅎ'), Final('ㄶ'), Final('ㅀ')} ==> jong' == jong && cho' == cho)
  }

  /** The rule agrees with the table. */
  lemma AspirationRuleMatchesTable(jong: Jong, next: Krch)
    ensures var w := AspirationRule(jong, next);
            AspirationTable(jong, next.choSeong, w.jong, w.cho)
  {
  }

  /** Aspiration pair by pair, as the table says. */
  lemma AspirationPair(s: seq<Krch>, k: nat)
    requires k + 1 < |s|
    ensures var r := Aspirated(s);
            AspirationTable(s[k].jongSeong, s[k + 1].choSeong, r[k].jongSeong, r[k + 1].choSeong)
  {
    PairwiseAt(s, AspirationRule, k);
    AspirationRuleMatchesTable(s[k].jongSeong, s[k + 1]);
  }

  /** The pairs aspiration rewrites: a coda ㄱ, ㄷ, ㅂ, ㅈ, ㄲ, ㄵ, ㄺ or ㄼ
      before the onset ㅎ, or a coda ㅎ, ㄶ or ㅀ before any other onset. */
  predicate AspirationApplies(jong: Jong, cho: char) {
    if cho == 'ㅎ' then
      jong in {Final('ㄱ'), Final('ㄷ'), Final('ㅂ'), Final('ㅈ'), Final('ㄲ'), Final('ㄵ'), Final('ㄺ'), Final('ㄼ')}
    else jong in {Final('ㅎ'), Final('ㄶ'), Final('ㅀ')}
  }

  /** The rule changes a pair exactly when it applies, and what it writes is
      never a pair it applies to. */
  lemma AspirationRuleApplies(jong: Jong, next: Krch)
    ensures AspirationRule(jong, next) != Keep(jong, next) <==> AspirationApplies(jong, next.choSeong)
    ensures !AspirationApplies(AspirationRule(jong, next).jong, AspirationRule(jong, next).cho)
  {
  }

  /** After aspiration no pair is left that aspiration would rewrite. */
  lemma AspirationComplete(s: seq<Krch>, k: nat)
    requires k + 1 < |s|
    ensures !AspirationApplies(Aspirated(s)[k].jongSeong, Aspirated(s)[k + 1].choSeong)
  {
    PairwiseAt(s, AspirationRule, k);
    AspirationRuleApplies(s[k].jongSeong, s[k + 1]);
  }

  /** So a second aspiration pass changes nothing. */
  lemma AspirationIdempotent(s: seq<Krch>)
    ensures Aspirated(Aspirated(s)) == Aspirated(s)
  {
    var r := Aspirated(s);
    forall k: nat | k + 1 < |r|
      ensures IdleAt(r, AspirationRule, k)
    {
      AspirationComplete(s, k);
      AspirationRuleApplies(r[k].jongSeong, r[k + 1]);
    }
    PairwiseIdle(r, AspirationRule);
  }

  // ---------------------------------------------------------------- syllable-ending rule

  /** The sixteen simple codas the ending rule rewrites, and the seven
      representative codas it rewrites them to. */
  const EndingCodas: set<Jong> := {
    Final('ㄱ'), Final('ㄲ'), Final('ㅋ'), Final('ㄴ'), Final('ㄷ'), Final('ㅌ'), Final('ㅅ'), Final('ㅆ'),
    Final('ㅈ'), Final('ㅊ'), Final('ㅎ'), Final('ㄹ'), Final('ㅁ'), Final('ㅂ'), Final('ㅍ'), Final('ㅇ')
  }
  const Representatives: set<Jong> := {
    Final('ㄱ'), Final('ㄴ'), Final('ㄷ'), Final('ㄹ'), Final('ㅁ'), Final('ㅂ'), Final('ㅇ')
  }

  /** The coda switch of syllableEndingRule. A coda outside the sixteen (no
      coda, an empty string, a compound coda) passes through unchanged. */
  function EndingRule(jong: Jong): (r: Jong)
    ensures jong in EndingCodas ==> r in Representatives
    ensures jong !in EndingCodas ==> r == jong
    ensures r in Representatives ==> jong in EndingCodas
  {
    match jong
    case Final('ㄱ') | Final('ㄲ') | Final('ㅋ') => Final('ㄱ')
    case Final('ㄴ') => Final('ㄴ')
    case Final('ㄷ') | Final('ㅌ') | Final('ㅅ') | Final('ㅆ') | Final('ㅈ') | Final('ㅊ') | Final('ㅎ') => Final('ㄷ')
    case Final('ㄹ') => Final('ㄹ')
    case Final('ㅁ') => Final('ㅁ')
    case Final('ㅂ') | Final('ㅍ') => Final('ㅂ')
    case Final('ㅇ') => Final('ㅇ')
    case _ => jong
  }

  /** The ending rule applied to every unit (the forEach). */
  function Neutralized(s: seq<Krch>): (t: seq<Krch>)
    ensures |t| == |s|
    ensures forall k :: 0 <= k < |s| ==> t[k].choSeong == s[k].choSeong && t[k].jungSeong == s[k].jungSeong
  {
    seq(|s|, k requires 0 <= k < |s| => s[k].(jongSeong := EndingRule(s[k].jongSeong)))
  }

  lemma EndingRuleIdempotent(jong: Jong)
    ensures EndingRule(EndingRule(jong)) == EndingRule(jong)
  {
  }

  /** Every coda after the pass is a representative, or one the rule does not
      rewrite; and a second pass changes nothing. */
  lemma NeutralizedCodas(s: seq<Krch>)
    ensures forall k :: 0 <= k < |s| ==>
      Neutralized(s)[k].jongSeong in Representatives || Neutralized(s)[k].jongSeong !in EndingCodas
    ensures Neutralized(Neutralized(s)) == Neutralized(s)
  {
    forall k | 0 <= k < |s|
      ensures EndingRule(EndingRule(s[k].jongSeong)) == EndingRule(s[k].jongSeong)
    {
      EndingRuleIdempotent(s[k].jongSeong);
    }
  }

  // ---------------------------------------------------------------- tensification

  const TensingCodas: set<Jong> := {Final('ㄱ'), Final('ㄷ'), Final('ㅂ'), Final('ㄹ'), Final('ㄴ'), Final('ㅁ')}
  const PlainOnsets: set<char> := {'ㄱ', 'ㄷ', 'ㅂ', 'ㅅ', 'ㅈ'}

  function TensedOnset(c: char): (t: char)
    ensures c in PlainOnsets <==> t != c
    ensures t !in PlainOnsets
  {
    match c
    case 'ㄱ' => 'ㄲ'
    case 'ㄷ' => 'ㄸ'
    case 'ㅂ' => 'ㅃ'
    case 'ㅅ' => 'ㅆ'
    case 'ㅈ' => 'ㅉ'
    case _ => c
  }

  function TensionRule(jong: Jong, next: Krch): Rewrite {
    if jong in TensingCodas then Rewrite(jong, TensedOnset(next.choSeong))
    else Keep(jong, next)
  }

  function Tensified(s: seq<Krch>): seq<Krch> {
    Pairwise(s, TensionRule)
  }

  /** Tensification changes only onsets after the first unit, and an onset
      changes exactly when it is plain and the coda before it is one of
      ㄱ, ㄷ, ㅂ, ㄹ, ㄴ, ㅁ; it then becomes its tense counterpart. */
  lemma TensificationPair(s: seq<Krch>, k: nat)
    requires k + 1 < |s|
    ensures var r := Tensified(s);
            r[k].jongSeong == s[k].jongSeong && r[0].choSeong == s[0].choSeong
            && (r[k + 1].choSeong != s[k + 1].choSeong
                <==> s[k].jongSeong in TensingCodas && s[k + 1].choSeong in PlainOnsets)
            && r[k + 1].choSeong == if s[k].jongSeong in TensingCodas then TensedOnset(s[k + 1].choSeong)
                                    else s[k + 1].choSeong
  {
    PairwiseAt(s, TensionRule, k);
    PairwiseEnds(s, TensionRule);
  }

  /** Tensification never touches a coda. */
  lemma TensificationKeepsCodas(s: seq<Krch>)
    ensures forall k :: 0 <= k < |s| ==> Tensified(s)[k].jongSeong == s[k].jongSeong
  {
    forall k | 0 <= k < |s|
      ensures Tensified(s)[k].jongSeong == s[k].jongSeong
    {
      PairwiseEnds(s, TensionRule);
      if k + 1 < |s| {
        PairwiseAt(s, TensionRule, k);
      }
    }
  }

  /** After tensification no plain onset follows a tensing coda, and a
      second pass changes nothing. */
  lemma TensificationComplete(s: seq<Krch>)
    ensures forall k :: 0 <= k < |s| - 1 ==>
      Tensified(s)[k].jongSeong in TensingCodas ==> Tensified(s)[k + 1].choSeong !in PlainOnsets
    ensures Tensified(Tensified(s)) == Tensified(s)
  {
    var r := Tensified(s);
    forall k: nat | k + 1 < |r|
      ensures r[k].jongSeong in TensingCodas ==> r[k + 1].choSeong !in PlainOnsets
      ensures IdleAt(r, TensionRule, k)
    {
      PairwiseAt(s, TensionRule, k);
    }
    PairwiseIdle(r, TensionRule);
  }

  // ---------------------------------------------------------------- the two spellings of "no coda"

  /** A coda with the empty string spelled as null, and a unit with its coda
      so spelled: getOrigins prints both spellings alike. */
  function NullSpelled(j: Jong): Jong {
    if j == Cleared then Absent else j
  }

  function Normal(k: Krch): Krch {
    k.(jongSeong := NullSpelled(k.jongSeong))
  }

  predicate SameSurface(s: seq<Krch>, t: seq<Krch>) {
    |s| == |t| && forall k :: 0 <= k < |s| ==> Normal(s[k]) == Normal(t[k])
  }

  predicate SameRewrite(w: Rewrite, w': Rewrite) {
    NullSpelled(w.jong) == NullSpelled(w'.jong) && w.cho == w'.cho
  }

  /** The rule writes the same, up to the spelling, at pair (k, k + 1) of
      two sequences. */
  predicate SameRewriteAt(s: seq<Krch>, t: seq<Krch>, rule: PairRule, k: nat)
    requires k + 1 < |s| && k + 1 < |t|
  {
    SameRewrite(rule(s[k].jongSeong, s[k + 1]), rule(t[k].jongSeong, t[k + 1]))
  }

  /** If a rule writes the same up to the spelling at every pair, the two
      scans differ only in the spelling. */
  lemma PairwiseSpelling(s: seq<Krch>, t: seq<Krch>, rule: PairRule)
    requires SameSurface(s, t)
    requires forall k: nat :: k + 1 < |s| ==> SameRewriteAt(s, t, rule, k)
    ensures SameSurface(Pairwise(s, rule), Pairwise(t, rule))
  {
    forall k | 0 <= k < |s|
      ensures Normal(Pairwise(s, rule)[k]) == Normal(Pairwise(t, rule)[k])
    {
      var s', t' := Pairwise(s, rule), Pairwise(t, rule);
      assert Normal(s[k]) == Normal(t[k]);
      PairwiseEnds(s, rule);
      PairwiseEnds(t, rule);
      if k + 1 < |s| {
        PairwiseAt(s, rule, k);
        PairwiseAt(t, rule, k);
        assert SameRewriteAt(s, t, rule, k);
      }
      if k > 0 {
        PairwiseAt(s, rule, k - 1);
        PairwiseAt(t, rule, k - 1);
        assert SameRewriteAt(s, t, rule, k - 1);
      }
    }
  }

  /** Aspiration and tensification read a coda only through its consonant. */
  lemma RulesIgnoreSpelling(jong: Jong, next: Krch, jong': Jong, next': Krch)
    requires NullSpelled(jong) == NullSpelled(jong') && Normal(next) == Normal(next')
    ensures SameRewrite(AspirationRule(jong, next), AspirationRule(jong', next'))
    ensures SameRewrite(TensionRule(jong, next), TensionRule(jong', next'))
  {
    assert next.choSeong == next'.choSeong;
  }

  /** Aspiration, the ending rule and tensification cannot tell a null coda
      from an empty-string one: sequences that differ only in that spelling
      stay so. */
  lemma LaterPassesIgnoreSpelling(s: seq<Krch>, t: seq<Krch>)
    requires SameSurface(s, t)
    ensures SameSurface(Aspirated(s), Aspirated(t))
    ensures SameSurface(Neutralized(s), Neutralized(t))
    ensures SameSurface(Tensified(s), Tensified(t))
  {
    forall k: nat | k + 1 < |s|
      ensures SameRewriteAt(s, t, AspirationRule, k) && SameRewriteAt(s, t, TensionRule, k)
    {
      assert Normal(s[k]) == Normal(t[k]) && Normal(s[k + 1]) == Normal(t[k + 1]);
      RulesIgnoreSpelling(s[k].jongSeong, s[k + 1], t[k].jongSeong, t[k + 1]);
    }
    PairwiseSpelling(s, t, AspirationRule);
    PairwiseSpelling(s, t, TensionRule);
    forall k | 0 <= k < |s|
      ensures Normal(Neutralized(s)[k]) == Normal(Neutralized(t)[k])
    {
      assert Normal(s[k]) == Normal(t[k]);
    }
  }

  /** Palatalization can: with the nucleus ㅏ after it, a coda ㄷ before
      ㅇ is kept when the next coda is null but moves when it is the empty
      string. */
  lemma PalatalizationSeesSpelling()
    ensures var s := [Krch('ㄱ', 'ㅜ', Final('ㄷ')), Krch('ㅇ', 'ㅏ', Absent)];
            var t := [Krch('ㄱ', 'ㅜ', Final('ㄷ')), Krch('ㅇ', 'ㅏ', Cleared)];
            SameSurface(s, t) && !SameSurface(Palatalized(s), Palatalized(t))
  {
    var s := [Krch('ㄱ', 'ㅜ', Final('ㄷ')), Krch('ㅇ', 'ㅏ', Absent)];
    var t := [Krch('ㄱ', 'ㅜ', Final('ㄷ')), Krch('ㅇ', 'ㅏ', Cleared)];
    assert Palatalized(s)[1].choSeong == 'ㅇ';
    assert Palatalized(t)[1].choSeong == 'ㅈ';
  }

  // ---------------------------------------------------------------- the tables are closed

  predicate AllWellFormed(s: seq<Krch>) {
    forall k :: 0 <= k < |s| ==> WellFormed(s[k])
  }

  /** The rule writes table entries at pair (k, k + 1). */
  predicate InTablesAt(s: seq<Krch>, rule: PairRule, k: nat)
    requires k + 1 < |s|
  {
    ValidJong(rule(s[k].jongSeong, s[k + 1]).jong) && rule(s[k].jongSeong, s[k + 1]).cho in ChoSeong
  }

  lemma PairwiseWellFormed(s: seq<Krch>, rule: PairRule)
    requires AllWellFormed(s)
    requires forall k: nat :: k + 1 < |s| ==> InTablesAt(s, rule, k)
    ensures AllWellFormed(Pairwise(s, rule))
  {
    forall k | 0 <= k < |s|
      ensures WellFormed(Pairwise(s, rule)[k])
    {
      assert WellFormed(s[k]);
      PairwiseEnds(s, rule);
      if k + 1 < |s| {
        PairwiseAt(s, rule, k);
        assert InTablesAt(s, rule, k);
      }
      if k > 0 {
        PairwiseAt(s, rule, k - 1);
        assert InTablesAt(s, rule, k - 1);
      }
    }
  }

  /** Every rule writes only table entries. */
  lemma PalatalRuleInTables(jong: Jong, next: Krch)
    requires ValidJong(jong) && next.choSeong in ChoSeong
    ensures ValidJong(PalatalRule(jong, next).jong) && PalatalRule(jong, next).cho in ChoSeong
  {
  }

  lemma AspirationRuleInTables(jong: Jong, next: Krch)
    requires ValidJong(jong) && next.choSeong in ChoSeong
    ensures ValidJong(AspirationRule(jong, next).jong) && AspirationRule(jong, next).cho in ChoSeong
  {
  }

  lemma TensionRuleInTables(jong: Jong, next: Krch)
    requires ValidJong(jong) && next.choSeong in ChoSeong
    ensures ValidJong(TensionRule(jong, next).jong) && TensionRule(jong, next).cho in ChoSeong
  {
  }

  lemma EndingRuleInTables(jong: Jong)
    requires ValidJong(jong)
    ensures ValidJong(EndingRule(jong))
  {
  }

  /** Every pass keeps each field inside its table. */
  lemma PassesKeepWellFormed(s: seq<Krch>)
    requires AllWellFormed(s)
    ensures AllWellFormed(Palatalized(s))
    ensures AllWellFormed(Aspirated(s))
    ensures AllWellFormed(Neutralized(s))
    ensures AllWellFormed(Tensified(s))
  {
    forall k: nat | k + 1 < |s|
      ensures InTablesAt(s, PalatalRule, k) && InTablesAt(s, AspirationRule, k) && InTablesAt(s, TensionRule, k)
    {
      assert WellFormed(s[k]) && WellFormed(s[k + 1]);
      PalatalRuleInTables(s[k].jongSeong, s[k + 1]);
      AspirationRuleInTables(s[k].jongSeong, s[k + 1]);
      TensionRuleInTables(s[k].jongSeong, s[k + 1]);
    }
    PairwiseWellFormed(s, PalatalRule);
    PairwiseWellFormed(s, AspirationRule);
    PairwiseWellFormed(s, TensionRule);
    forall k | 0 <= k < |s|
      ensures WellFormed(Neutralized(s)[k])
    {
      assert WellFormed(s[k]);
      EndingRuleInTables(s[k].jongSeong);
    }
  }
}
