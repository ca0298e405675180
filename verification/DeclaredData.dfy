/** The comparison of declared data with what was read: letters and digits count, nothing else does. */
module DeclaredData {
  import opened KycTypes
  import opened TextLines
  import opened Decision

  predicate IsLetterOrDigit(c: char) {
    '0' <= c <= '9' || 'A' <= c <= 'Z' || 'a' <= c <= 'z'
  }

  predicate SameLetter(c: char, d: char) {
    || c == d
    || ('a' <= c <= 'z' && 'A' <= d <= 'Z' && c - 'a' == d - 'A')
    || ('A' <= c <= 'Z' && 'a' <= d <= 'z' && c - 'A' == d - 'a')
  }

  /** The same letters and digits in the same order, whatever their case and whatever stands between them. */
  predicate Agree(a: string, b: string)
    decreases |a| + |b|
  {
    if a != "" && !IsLetterOrDigit(a[0]) then Agree(a[1..], b)
    else if b != "" && !IsLetterOrDigit(b[0]) then Agree(a, b[1..])
    else if a == "" || b == "" then a == b
    else SameLetter(a[0], b[0]) && Agree(a[1..], b[1..])
  }

  predicate Says(s: string) {
    exists i :: 0 <= i < |s| && IsLetterOrDigit(s[i])
  }

  lemma NormalizedHead(s: string)
    requires s != ""
    ensures Normalized(s) == (if IsLetterOrDigit(s[0]) then [UpperChar(s[0])] else "") + Normalized(s[1..])
  {
    assert MapChars(s, UpperChar)[1..] == MapChars(s[1..], UpperChar);
  }

  lemma {:induction false} AgreeIsNormalized(a: string, b: string)
    ensures Agree(a, b) <==> Normalized(a) == Normalized(b)
    decreases |a| + |b|
  {
    hide Normalized;
    NothingNormalized();
    if a != "" {
      NormalizedHead(a);
    }
    if b != "" {
      NormalizedHead(b);
    }
    if a != "" && !IsLetterOrDigit(a[0]) {
      AgreeIsNormalized(a[1..], b);
    } else if b != "" && !IsLetterOrDigit(b[0]) {
      AgreeIsNormalized(a, b[1..]);
    } else if a != "" && b != "" {
      AgreeIsNormalized(a[1..], b[1..]);
      HeadAndTail(UpperChar(a[0]), Normalized(a[1..]), UpperChar(b[0]), Normalized(b[1..]));
    }
  }

  lemma HeadAndTail(c: char, s: string, d: char, t: string)
    ensures [c] + s == [d] + t <==> c == d && s == t
  {
    assert ([c] + s)[0] == c && ([c] + s)[1..] == s;
    assert ([d] + t)[0] == d && ([d] + t)[1..] == t;
  }

  lemma NothingNormalized()
    ensures Normalized("") == ""
  {
  }

  lemma {:induction false} SaysSomething(s: string)
    ensures Says(s) <==> Normalized(s) != ""
  {
    hide Normalized;
    NothingNormalized();
    if s != "" {
      NormalizedHead(s);
      SaysSomething(s[1..]);
      if Says(s[1..]) {
        var i :| 0 <= i < |s[1..]| && IsLetterOrDigit(s[1..][i]);
        assert IsLetterOrDigit(s[i + 1]);
      }
      if Says(s) && !IsLetterOrDigit(s[0]) {
        var i :| 0 <= i < |s| && IsLetterOrDigit(s[i]);
        assert s[1..][i - 1] == s[i];
      }
    }
  }

  // ---------------------------------------------------------------- the comparison

  /** A declared field and the one read both say something. */
  predicate Comparable(extracted: Fields, personal: Fields, k: Field)
    requires k in personal
  {
    k in extracted && Says(personal[k]) && Says(extracted[k])
  }

  /** `data_matches` passes when every declared field was read with the same letters and digits, fails when
      all were read and one differs, and is undecided when nothing is declared or something says nothing. */
  lemma DataMatchesExactly(extracted: Fields, personal: Fields)
    ensures var declared := set k | k in personal && personal[k] != "";
            DataMatches(extracted, personal)
            == if declared == {} || exists k :: k in declared && !Comparable(extracted, personal, k) then Unavailable
               else if forall k :: k in declared ==> Agree(personal[k], extracted[k]) then Passed
               else Failed
  {
    hide Normalized, Says, Agree;
    var declared := set k | k in personal && personal[k] != "";
    assert declared == Required(personal);
    NothingNormalized();
    forall k | k in personal ensures Says(personal[k]) <==> Normalized(personal[k]) != "" {
      SaysSomething(personal[k]);
    }
    forall k | k in extracted ensures Says(extracted[k]) <==> Normalized(extracted[k]) != "" {
      SaysSomething(extracted[k]);
    }
    forall k | k in personal && k in extracted
      ensures Agree(personal[k], extracted[k]) <==> Normalized(personal[k]) == Normalized(extracted[k])
    {
      AgreeIsNormalized(personal[k], extracted[k]);
    }
    assert forall k :: k in declared ==> (Comparable(extracted, personal, k) <==>
        Get(extracted, k) != "" && Normalized(personal[k]) != "" && Normalized(extracted[k]) != "");
  }

  /** The same data, written differently. */
  predicate SameData(a: Fields, b: Fields) {
    a.Keys == b.Keys && forall k :: k in a ==> Agree(a[k], b[k]) && (a[k] == "" <==> b[k] == "")
  }

  /** Case, spaces and punctuation of what was declared, or of what was read, never change the answer. */
  lemma StyleIsIgnored(extracted: Fields, personal: Fields, extracted': Fields, personal': Fields)
    requires SameData(extracted, extracted') && SameData(personal, personal')
    ensures DataMatches(extracted, personal) == DataMatches(extracted', personal')
  {
    hide Normalized, Agree;
    assert Required(personal) == Required(personal');
    forall k | k in personal ensures Normalized(personal[k]) == Normalized(personal'[k]) {
      AgreeIsNormalized(personal[k], personal'[k]);
    }
    forall k | k in extracted ensures Normalized(extracted[k]) == Normalized(extracted'[k]) {
      AgreeIsNormalized(extracted[k], extracted'[k]);
    }
  }
}
