/** Normalisation of arbitrary text into a Kubernetes label value. */
module Labels {
  import opened Names

  predicate IsLabelChar(c: char) { IsAlnum(c) || c == '.' || c == '_' || c == '-' }

  /** Kubernetes' rule for label values: at most 63 characters out of the allowed ones,
      empty or with an alphanumeric character at either end. */
  predicate IsValidLabelValue(v: string) {
    && |v| <= 63
    && (forall i :: 0 <= i < |v| ==> IsLabelChar(v[i]))
    && (v != "" ==> IsAlnum(v[0]) && IsAlnum(v[|v| - 1]))
  }

  function ReplaceInvalid(v: string): (r: string)
    ensures |r| == |v|
    ensures forall i :: 0 <= i < |v| ==> r[i] == if IsLabelChar(v[i]) then v[i] else '_'
  {
    if v == "" then "" else [if IsLabelChar(v[0]) then v[0] else '_'] + ReplaceInvalid(v[1..])
  }

  /** Replaces every run of underscores by a single one. */
  function CollapseUnderscores(v: string): string {
    if v == "" then ""
    else if v[0] == '_' && |v| > 1 && v[1] == '_' then CollapseUnderscores(v[1..])
    else [v[0]] + CollapseUnderscores(v[1..])
  }

  predicate IsCut(c: char) { c == '.' || c == '_' || c == '-' }

  function TrimLeft(v: string): string {
    if v != "" && IsCut(v[0]) then TrimLeft(v[1..]) else v
  }

  function TrimRight(v: string): string {
    if v != "" && IsCut(v[|v| - 1]) then TrimRight(v[..|v| - 1]) else v
  }

  /** The text with everything invalid replaced, collapsed and trimmed, before it is shortened. */
  function Trimmed(v: string): string {
    TrimRight(TrimLeft(CollapseUnderscores(ReplaceInvalid(v))))
  }

  function SanitizeLabelValue(v: string): string {
    if IsValidLabelValue(v) then v
    else
      var w := Trimmed(v);
      if |w| > 63 then TrimRight(w[..63]) else w
  }

  // ---------------------------------------------------------------- properties

  /** For every string the result is a valid label value; valid values are left alone, so a second
      application changes nothing. */
  lemma SanitizedIsValid(v: string)
    ensures IsValidLabelValue(SanitizeLabelValue(v))
    ensures IsValidLabelValue(v) <==> SanitizeLabelValue(v) == v
    ensures SanitizeLabelValue(SanitizeLabelValue(v)) == SanitizeLabelValue(v)
  {
    if !IsValidLabelValue(v) {
      CollapseShape(ReplaceInvalid(v));
      var c := CollapseUnderscores(ReplaceInvalid(v));
      TrimmedEnds(c);
      ShortenedIsValid(TrimRight(TrimLeft(c)));
    }
  }

  ghost predicate AllLabelChars(v: string) {
    forall i :: 0 <= i < |v| ==> IsLabelChar(v[i])
  }

  lemma TrimmedEnds(c: string)
    requires AllLabelChars(c)
    ensures var w := TrimRight(TrimLeft(c));
            AllLabelChars(w) && (w != "" ==> IsAlnum(w[0]) && IsAlnum(w[|w| - 1]))
  {
    TrimLeftShape(c);
    TrimRightShape(TrimLeft(c));
  }

  lemma ShortenedIsValid(w: string)
    requires AllLabelChars(w) && (w != "" ==> IsAlnum(w[0]) && IsAlnum(w[|w| - 1]))
    ensures IsValidLabelValue(if |w| > 63 then TrimRight(w[..63]) else w)
  {
    if |w| > 63 {
      TrimRightShape(w[..63]);
    }
  }

  /** No alphanumeric character is invented, changed or reordered: those of the result are a prefix of
      those of the input, and all of them when the input has at most 63 characters. */
  lemma SanitizedKeepsAlnum(v: string)
    ensures Strip(SanitizeLabelValue(v)) <= Strip(v)
    ensures |v| <= 63 ==> Strip(SanitizeLabelValue(v)) == Strip(v)
  {
    TrimmedKeepsAlnum(v);
    StripShortened(Trimmed(v));
  }

  lemma TrimmedKeepsAlnum(v: string)
    ensures Strip(Trimmed(v)) == Strip(v) && |Trimmed(v)| <= |v|
  {
    var a := ReplaceInvalid(v);
    var c := CollapseUnderscores(a);
    StripReplace(v);
    StripCollapse(a);
    StripTrimLeft(c);
    StripTrimRight(TrimLeft(c));
    TrimmedIsShorter(v);
  }

  lemma TrimmedIsShorter(v: string)
    ensures |Trimmed(v)| <= |v|
  {
    var c := CollapseUnderscores(ReplaceInvalid(v));
    CollapseShape(ReplaceInvalid(v));
    TrimLeftShape(c);
    TrimRightShape(TrimLeft(c));
  }

  lemma StripShortened(w: string)
    ensures |w| > 63 ==> Strip(TrimRight(w[..63])) <= Strip(w)
  {
    if |w| > 63 {
      StripTrimRight(w[..63]);
      StripConcat(w[..63], w[63..]);
      assert w == w[..63] + w[63..];
    }
  }

  /** Text that had to be changed contains no two neighbouring underscores afterwards. */
  lemma SanitizedHasSingleUnderscores(v: string)
    ensures IsValidLabelValue(v) || !HasDoubleUnderscore(SanitizeLabelValue(v))
  {
    var c := CollapseUnderscores(ReplaceInvalid(v));
    CollapseShape(ReplaceInvalid(v));
    TrimLeftShape(c);
    TrimRightShape(TrimLeft(c));
    var w := TrimRight(TrimLeft(c));
    assert w == c[|c| - |TrimLeft(c)|..][..|w|];
    if |w| > 63 {
      TrimRightShape(w[..63]);
    }
  }

  ghost predicate HasDoubleUnderscore(v: string) {
    exists i :: 0 <= i < |v| - 1 && v[i] == '_' && v[i + 1] == '_'
  }

  lemma {:induction false} CollapseShape(v: string)
    ensures |CollapseUnderscores(v)| <= |v|
    ensures AllLabelChars(v) ==> AllLabelChars(CollapseUnderscores(v))
    ensures v != "" ==> CollapseUnderscores(v) != "" && CollapseUnderscores(v)[0] == v[0]
    ensures !HasDoubleUnderscore(CollapseUnderscores(v))
  {
    if v != "" {
      CollapseShape(v[1..]);
    }
  }

  lemma {:induction false} TrimLeftShape(v: string)
    ensures |TrimLeft(v)| <= |v| && TrimLeft(v) == v[|v| - |TrimLeft(v)|..]
    ensures TrimLeft(v) != "" ==> !IsCut(TrimLeft(v)[0])
  {
    if v != "" && IsCut(v[0]) {
      TrimLeftShape(v[1..]);
    }
  }

  lemma {:induction false} TrimRightShape(v: string)
    ensures TrimRight(v) <= v
    ensures TrimRight(v) != "" ==> !IsCut(TrimRight(v)[|TrimRight(v)| - 1])
  {
    if v != "" && IsCut(v[|v| - 1]) {
      TrimRightShape(v[..|v| - 1]);
    }
  }

  lemma {:induction false} StripReplace(v: string)
    ensures Strip(ReplaceInvalid(v)) == Strip(v)
  {
    if v != "" {
      StripReplace(v[1..]);
    }
  }

  lemma {:induction false} StripCollapse(v: string)
    ensures Strip(CollapseUnderscores(v)) == Strip(v)
  {
    if v != "" {
      StripCollapse(v[1..]);
      var t := CollapseUnderscores(v[1..]);
      assert ([v[0]] + t)[1..] == t;
    }
  }

  lemma {:induction false} StripTrimLeft(v: string)
    ensures Strip(TrimLeft(v)) == Strip(v)
  {
    if v != "" && IsCut(v[0]) {
      StripTrimLeft(v[1..]);
    }
  }

  lemma {:induction false} StripTrimRight(v: string)
    ensures Strip(TrimRight(v)) == Strip(v)
  {
    if v != "" && IsCut(v[|v| - 1]) {
      StripTrimRight(v[..|v| - 1]);
      assert v == v[..|v| - 1] + [v[|v| - 1]];
      StripConcat(v[..|v| - 1], [v[|v| - 1]]);
      assert Strip([v[|v| - 1]]) == "";
    }
  }

  lemma {:induction false} StripConcat(a: string, b: string)
    ensures Strip(a + b) == Strip(a) + Strip(b)
  {
    if a == "" {
      assert a + b == b;
    } else {
      assert (a + b)[1..] == a[1..] + b;
      StripConcat(a[1..], b);
    }
  }

  /** The maximal runs of alphanumeric characters. */
  function Words(v: string): (ws: seq<string>)
    ensures v != "" && IsAlnum(v[0]) ==> ws != []
  {
    if v == "" then []
    else if !IsAlnum(v[0]) then Words(v[1..])
    else if |v| > 1 && IsAlnum(v[1]) then [[v[0]] + Words(v[1..])[0]] + Words(v[1..])[1..]
    else [[v[0]]] + Words(v[1..])
  }

  /** Words stay apart: text of at most 63 characters has the same words afterwards, so a separator between
      two of them never goes. */
  lemma SanitizedKeepsWords(v: string)
    requires |v| <= 63
    ensures Words(SanitizeLabelValue(v)) == Words(v)
  {
    var a := ReplaceInvalid(v);
    var c := CollapseUnderscores(a);
    WordsOfReplaced(v);
    WordsOfCollapsed(a);
    WordsOfLeftTrimmed(c);
    WordsOfRightTrimmed(TrimLeft(c));
    TrimmedIsShorter(v);
  }

  lemma {:induction false} WordsOfReplaced(v: string)
    ensures Words(ReplaceInvalid(v)) == Words(v)
  {
    if v != "" {
      assert ReplaceInvalid(v)[1..] == ReplaceInvalid(v[1..]);
      WordsOfReplaced(v[1..]);
    }
  }

  lemma {:induction false} WordsOfCollapsed(v: string)
    ensures Words(CollapseUnderscores(v)) == Words(v)
  {
    if v != "" {
      CollapseShape(v[1..]);
      WordsOfCollapsed(v[1..]);
      assert ([v[0]] + CollapseUnderscores(v[1..]))[1..] == CollapseUnderscores(v[1..]);
    }
  }

  lemma {:induction false} WordsOfLeftTrimmed(v: string)
    ensures Words(TrimLeft(v)) == Words(v)
  {
    if v != "" && IsCut(v[0]) {
      WordsOfLeftTrimmed(v[1..]);
    }
  }

  lemma {:induction false} WordsOfRightTrimmed(v: string)
    ensures Words(TrimRight(v)) == Words(v)
  {
    if v != "" && IsCut(v[|v| - 1]) {
      var w := v[..|v| - 1];
      WordsOfRightTrimmed(w);
      assert v == w + [v[|v| - 1]];
      WordsBeforeCut(w, v[|v| - 1]);
    }
  }

  lemma {:induction false} WordsBeforeCut(v: string, c: char)
    requires IsCut(c)
    ensures Words(v + [c]) == Words(v)
  {
    if v == "" {
      assert v + [c] == [c];
    } else {
      assert (v + [c])[1..] == v[1..] + [c];
      WordsBeforeCut(v[1..], c);
    }
  }

  /** A character that has to be replaced, or an underscore. */
  predicate IsGap(c: char) { c == '_' || !IsLabelChar(c) }

  /** Text that only has single gaps, all inside, is changed in no other way: each invalid character becomes an
      underscore, and everything else stays in its place. */
  lemma SanitizedInPlace(v: string)
    requires 1 <= |v| <= 63 && IsAlnum(v[0]) && IsAlnum(v[|v| - 1])
    requires forall i :: 0 <= i < |v| - 1 ==> !(IsGap(v[i]) && IsGap(v[i + 1]))
    ensures |SanitizeLabelValue(v)| == |v|
    ensures forall i :: 0 <= i < |v| ==> SanitizeLabelValue(v)[i] == if IsLabelChar(v[i]) then v[i] else '_'
  {
    SinglesStay(ReplaceInvalid(v));
    EndsStay(ReplaceInvalid(v));
  }

  lemma EndsStay(v: string)
    requires v != "" && IsAlnum(v[0]) && IsAlnum(v[|v| - 1])
    ensures TrimRight(TrimLeft(v)) == v
  {
    assert TrimLeft(v) == v && TrimRight(v) == v;
  }

  lemma {:induction false} SinglesStay(v: string)
    requires forall i :: 0 <= i < |v| - 1 ==> !(v[i] == '_' && v[i + 1] == '_')
    ensures CollapseUnderscores(v) == v
  {
    if v != "" {
      assert |v| > 1 ==> !(v[0] == '_' && v[0 + 1] == '_');
      forall i | 0 <= i < |v[1..]| - 1
        ensures !(v[1..][i] == '_' && v[1..][i + 1] == '_')
      {
        assert v[1..][i] == v[i + 1] && v[1..][i + 1] == v[(i + 1) + 1];
      }
      SinglesStay(v[1..]);
    }
  }
}
