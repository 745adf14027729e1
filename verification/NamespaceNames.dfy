/** Namespace names, as checked by internal/namespaces and sanitizeNamespaceNames. */
module NamespaceNames {

  const MAX_NAME_LENGTH := 63

  predicate Alphanumeric(c: char) {
    'a' <= c <= 'z' || '0' <= c <= '9'
  }

  /** A DNS label: section 2.1 of RFC 1123, with the length limit of section 2.3.4 of RFC 1035. */
  predicate ValidName(n: string) {
    && 1 <= |n| <= MAX_NAME_LENGTH
    && Alphanumeric(n[0]) && Alphanumeric(n[|n| - 1])
    && forall i :: 0 <= i < |n| ==> Alphanumeric(n[i]) || n[i] == '-'
  }

  /** By code point. */
  predicate LetterOrDigit(c: char) {
    97 <= c as int <= 122 || 48 <= c as int <= 57
  }

  /** The pattern [a-z0-9]([-a-z0-9]*[a-z0-9])?, as one character, or two around others. */
  ghost predicate MatchesPattern(n: string) {
    || (exists c :: n == [c] && LetterOrDigit(c))
    || (exists first, middle, last ::
          && n == [first] + middle + [last]
          && LetterOrDigit(first) && LetterOrDigit(last)
          && forall c :: c in middle ==> LetterOrDigit(c) || c == '-')
  }

  lemma ValidNameExactly(n: string)
    ensures ValidName(n) <==> MatchesPattern(n) && |n| <= 63
  {
    if ValidName(n) && |n| == 1 {
      assert n == [n[0]];
    } else if ValidName(n) {
      assert n == [n[0]] + n[1..|n| - 1] + [n[|n| - 1]];
    }
    if first, middle, last :| && n == [first] + middle + [last]
                              && LetterOrDigit(first) && LetterOrDigit(last)
                              && forall c :: c in middle ==> LetterOrDigit(c) || c == '-' {
      forall i | 0 <= i < |n| ensures Alphanumeric(n[i]) || n[i] == '-' {
        assert 0 < i < |n| - 1 ==> n[i] == middle[i - 1] && middle[i - 1] in middle;
      }
    }
  }

  const SYSTEM_NAMESPACES: seq<string> := ["kyma-system", "kube-system", "istio-system"]

  predicate SystemNamespace(n: string) {
    n == "kyma-system" || n == "kube-system" || n == "istio-system"
  }

  function Sanitized(names: seq<string>): seq<string> {
    if names == [] then []
    else if ValidName(names[0]) then [names[0]] + Sanitized(names[1..])
    else Sanitized(names[1..])
  }

  method SanitizeNamespaceNames(names: seq<string>) returns (valid: seq<string>)
    ensures valid == Sanitized(names)
  {
    valid := [];
    for i := 0 to |names|
      invariant Sanitized(names) == valid + Sanitized(names[i..])
    {
      assert names[i..][1..] == names[i + 1..];
      if ValidName(names[i]) {
        assert valid + ([names[i]] + Sanitized(names[i + 1..])) == valid + [names[i]] + Sanitized(names[i + 1..]);
        valid := valid + [names[i]];
      }
    }
    assert valid + [] == valid;
  }

  lemma {:induction false} SanitizedMembers(names: seq<string>, n: string)
    ensures n in Sanitized(names) <==> n in names && ValidName(n)
  {
    if names != [] {
      assert names == [names[0]] + names[1..];
      SanitizedMembers(names[1..], n);
    }
  }

  lemma {:induction false} SanitizedValid(names: seq<string>)
    requires forall n :: n in names ==> ValidName(n)
    ensures Sanitized(names) == names
  {
    if names != [] {
      SanitizedValid(names[1..]);
    }
  }

  /** Exactly the lists of valid names pass unchanged. */
  lemma SanitizedSameIff(names: seq<string>)
    ensures Sanitized(names) == names <==> forall n :: n in names ==> ValidName(n)
  {
    if Sanitized(names) == names {
      forall n | n in names ensures ValidName(n) {
        SanitizedMembers(names, n);
      }
    } else if forall n :: n in names ==> ValidName(n) {
      SanitizedValid(names);
    }
  }

  lemma SanitizeIdempotent(names: seq<string>)
    ensures Sanitized(Sanitized(names)) == Sanitized(names)
  {
    forall n | n in Sanitized(names) ensures ValidName(n) {
      SanitizedMembers(names, n);
    }
    SanitizedValid(Sanitized(names));
  }

  lemma SystemNamespacesValid()
    ensures forall n :: n in SYSTEM_NAMESPACES <==> SystemNamespace(n)
    ensures forall n :: n in SYSTEM_NAMESPACES ==> ValidName(n)
    ensures Sanitized(SYSTEM_NAMESPACES) == SYSTEM_NAMESPACES
  {
    SanitizedValid(SYSTEM_NAMESPACES);
  }
}
