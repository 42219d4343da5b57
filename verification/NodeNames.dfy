/** Kubernetes node names: DNS-1123 subdomains, checked label by label. */
module NodeNames {
  const MAX_NAME := 253
  const MAX_LABEL := 63

  predicate Alphanumeric(c: char) {
    'a' <= c <= 'z' || '0' <= c <= '9'
  }

  function FirstDot(s: string): (i: nat)
    ensures i <= |s| && (i < |s| ==> s[i] == '.') && forall j :: 0 <= j < i ==> s[j] != '.'
  {
    if s == "" || s[0] == '.' then 0 else 1 + FirstDot(s[1..])
  }

  /** The name split at its dots. */
  function Labels(s: string): seq<string> {
    var i := FirstDot(s);
    if i == |s| then [s] else [s[..i]] + Labels(s[i + 1..])
  }

  /** Letters, digits and inner hyphens. */
  predicate ValidLabel(s: string) {
    && 1 <= |s| <= MAX_LABEL && Alphanumeric(s[0]) && Alphanumeric(s[|s| - 1])
    && forall i :: 0 <= i < |s| ==> Alphanumeric(s[i]) || s[i] == '-'
  }

  /** `validate_kubernetes_dns_subdomain`. */
  predicate ValidNodeName(s: string) {
    1 <= |s| <= MAX_NAME && forall l :: l in Labels(s) ==> ValidLabel(l)
  }

  // --------------------------------------------------------------- the same, by positions

  /** A letter or digit, an inner hyphen, or a dot between two letters or digits. */
  predicate NameCharacter(s: string, i: nat)
    requires i < |s|
  {
    || 'a' <= s[i] <= 'z'
    || '0' <= s[i] <= '9'
    || (0 < i < |s| - 1 && s[i] == '-')
    || (0 < i < |s| - 1 && s[i] == '.' && s[i - 1] !in {'.', '-'} && s[i + 1] !in {'.', '-'})
  }

  /** There is a dot among any 64 characters in a row. */
  predicate DotWithin(s: string, i: nat)
    requires i + 64 <= |s|
  {
    exists j :: i <= j < i + 64 && s[j] == '.'
  }

  predicate WellSpelled(s: string) {
    && |s| >= 1
    && (forall i {:trigger NameCharacter(s, i)} :: 0 <= i < |s| ==> NameCharacter(s, i))
    && (forall i {:trigger DotWithin(s, i)} :: 0 <= i <= |s| - 64 ==> DotWithin(s, i))
  }

  lemma OneLabel(s: string)
    requires '.' !in s
    ensures WellSpelled(s) <==> ValidLabel(s)
  {
    if WellSpelled(s) {
      assert NameCharacter(s, 0) && NameCharacter(s, |s| - 1);
      assert |s| >= 64 ==> DotWithin(s, 0);
      forall i | 0 <= i < |s| ensures Alphanumeric(s[i]) || s[i] == '-' {
        assert NameCharacter(s, i);
      }
    }
    if ValidLabel(s) {
      forall i | 0 <= i < |s| ensures NameCharacter(s, i) {
        assert s[i] == '-' ==> 0 < i < |s| - 1;
      }
    }
  }

  lemma LongLabelIsMisspelled(l: string, rest: string)
    requires '.' !in l && |l| >= 64
    ensures !WellSpelled(l + "." + rest)
  {
    var s := l + "." + rest;
    forall j | 0 <= j < 64 ensures s[j] != '.' {
      assert s[j] == l[j];
    }
    assert !DotWithin(s, 0);
  }

  lemma FirstLabelIsSpelled(l: string, rest: string)
    requires '.' !in l && WellSpelled(l + "." + rest)
    ensures ValidLabel(l) && WellSpelled(rest)
  {
    var s, n := l + "." + rest, |l|;
    if n >= 64 {
      LongLabelIsMisspelled(l, rest);
    }
    assert s[n] == '.' && NameCharacter(s, n) && NameCharacter(s, 0);
    assert NameCharacter(s, n - 1) && NameCharacter(s, n + 1);
    assert s[n - 1] == l[n - 1] && s[n + 1] == rest[0] && s[0] == l[0];
    forall i | 0 <= i < n ensures Alphanumeric(l[i]) || l[i] == '-' {
      assert NameCharacter(s, i) && s[i] == l[i];
    }
    forall k | 0 <= k < |rest| ensures NameCharacter(rest, k) {
      assert NameCharacter(s, n + 1 + k) && s[n + 1 + k] == rest[k];
      assert k > 0 ==> s[n + k] == rest[k - 1];
      assert k + 1 < |rest| ==> s[n + 2 + k] == rest[k + 1];
    }
    forall k | 0 <= k <= |rest| - 64 ensures DotWithin(rest, k) {
      assert DotWithin(s, n + 1 + k);
      var j :| n + 1 + k <= j < n + 1 + k + 64 && s[j] == '.';
      assert rest[j - n - 1] == '.';
    }
  }

  lemma SpelledWithLabel(l: string, rest: string)
    requires '.' !in l && ValidLabel(l) && WellSpelled(rest)
    ensures WellSpelled(l + "." + rest)
  {
    var s, n := l + "." + rest, |l|;
    assert NameCharacter(rest, 0);
    forall i | 0 <= i < |s| ensures NameCharacter(s, i) {
      if i < n {
        assert s[i] == l[i] && (l[i] == '-' ==> 0 < i);
      } else if i == n {
        assert s[i - 1] == l[n - 1] && s[i + 1] == rest[0];
      } else {
        var k := i - n - 1;
        assert NameCharacter(rest, k) && s[i] == rest[k];
        assert k > 0 ==> s[i - 1] == rest[k - 1];
        assert k + 1 < |rest| ==> s[i + 1] == rest[k + 1];
      }
    }
    forall i | 0 <= i <= |s| - 64 ensures DotWithin(s, i) {
      if i <= n {
        assert s[n] == '.';
      } else {
        assert DotWithin(rest, i - n - 1);
        var j :| i - n - 1 <= j < i - n - 1 + 64 && rest[j] == '.';
        assert s[j + n + 1] == '.';
      }
    }
  }

  lemma SpelledByLabel(l: string, rest: string)
    requires '.' !in l
    ensures WellSpelled(l + "." + rest) <==> ValidLabel(l) && WellSpelled(rest)
  {
    if WellSpelled(l + "." + rest) {
      FirstLabelIsSpelled(l, rest);
    } else if ValidLabel(l) && WellSpelled(rest) {
      SpelledWithLabel(l, rest);
    }
  }

  lemma CutAt(s: string, i: nat)
    requires i < |s| && s[i] == '.' && forall j :: 0 <= j < i ==> s[j] != '.'
    ensures s == s[..i] + "." + s[i + 1..] && '.' !in s[..i]
  {
  }

  predicate AllValid(labels: seq<string>) {
    forall l :: l in labels ==> ValidLabel(l)
  }

  lemma AllValidWithFirst(l: string, labels: seq<string>)
    ensures AllValid([l] + labels) <==> ValidLabel(l) && AllValid(labels)
  {
    assert l in [l] + labels && forall x :: x in labels ==> x in [l] + labels;
  }

  lemma {:induction false} LabelsSpellTheName(s: string)
    ensures AllValid(Labels(s)) <==> WellSpelled(s)
    decreases |s|
  {
    var i := FirstDot(s);
    if i == |s| {
      OneLabel(s);
      assert Labels(s) == [s] + [];
      AllValidWithFirst(s, []);
    } else {
      var l, rest := s[..i], s[i + 1..];
      LabelsSpellTheName(rest);
      AllValidWithFirst(l, Labels(rest));
      CutAt(s, i);
      SpelledByLabel(l, rest);
    }
  }

  /** A name is valid exactly when it has at most 253 characters, all of them lower-case letters, digits, inner
      hyphens or dots between letters or digits, and no 64 in a row without a dot. */
  lemma ValidExactly(s: string)
    ensures ValidNodeName(s) <==> |s| <= 253 && WellSpelled(s)
  {
    LabelsSpellTheName(s);
  }
}
