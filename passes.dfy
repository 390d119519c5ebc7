/** The four passes of index.ts as they run: in place, over the array of
    decoded units, each proved equal to its specification in module Rules. */
module Passes {
  import opened Hangul
  import opened Rules

  /** Rewriting pair (i, i + 1) in place after the first i pairs extends the
      prefix of rewritten pairs by one. */
  lemma RewriteStep(s: seq<Krch>, rule: PairRule, i: nat)
    requires i + 1 < |s|
    ensures var t := RewrittenUpTo(s, rule, i);
            var w := rule(t[i].jongSeong, t[i + 1]);
            t[i := t[i].(jongSeong := w.jong)][i + 1 := t[i + 1].(choSeong := w.cho)]
            == RewrittenUpTo(s, rule, i + 1)
  {
    var t := RewrittenUpTo(s, rule, i);
    assert t[i].jongSeong == s[i].jongSeong && t[i + 1] == s[i + 1];
  }

  /** The loop shared by palatalization, aspiration and tensification:
      for (i = 0, j = 1; j < length; i++, j++), rewriting the coda of unit i
      and the onset of unit j. */
  method RewritePairs(a: array<Krch>, rule: PairRule)
    modifies a
    ensures a[..] == Pairwise(old(a[..]), rule)
  {
    ghost var s := a[..];
    var i, j := 0, 1;
    while j < a.Length
      invariant j == i + 1 && (i == 0 || i < a.Length)
      invariant a[..] == RewrittenUpTo(s, rule, i)
    {
      RewriteStep(s, rule, i);
      var w := rule(a[i].jongSeong, a[j]);
      a[i] := a[i].(jongSeong := w.jong);
      a[j] := a[j].(choSeong := w.cho);
      i, j := i + 1, j + 1;
    }
  }

  /** palatalization */
  method Palatalization(a: array<Krch>)
    modifies a
    ensures a[..] == Palatalized(old(a[..]))
  {
    RewritePairs(a, PalatalRule);
  }

  /** aspiration */
  method Aspiration(a: array<Krch>)
    modifies a
    ensures a[..] == Aspirated(old(a[..]))
  {
    RewritePairs(a, AspirationRule);
  }

  /** tensification */
  method Tensification(a: array<Krch>)
    modifies a
    ensures a[..] == Tensified(old(a[..]))
  {
    RewritePairs(a, TensionRule);
  }

  /** syllableEndingRule: the coda switch applied to every unit in turn. */
  method SyllableEndingRule(a: array<Krch>)
    modifies a
    ensures a[..] == Neutralized(old(a[..]))
  {
    ghost var s := a[..];
    for k := 0 to a.Length
      invariant a[..k] == Neutralized(s)[..k]
      invariant a[k..] == s[k..]
    {
      var changed := EndingRule(a[k].jongSeong);
      a[k] := a[k].(jongSeong := changed);
    }
  }
}
