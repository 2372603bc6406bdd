/** The names of the secrets that are made for one root, and when two of them are the same. */
module Names {
  import opened CASecrets
  import opened Injection
  import opened Workers

  // ------------------------------------------------------------------ names of one kind

  lemma TruststoreNames(one: string, other: string)
    ensures TruststoreSecretName(one) == TruststoreSecretName(other) <==> one == other
  {
    var suffix := TruststoreSecretName("");
    assert TruststoreSecretName(one) == one + suffix && TruststoreSecretName(other) == other + suffix;
    assert (one + suffix)[..|one + suffix| - |suffix|] == one;
    assert (other + suffix)[..|other + suffix| - |suffix|] == other;
  }

  lemma CaNames(caSecret: CASecret, one: string, other: string)
    ensures CaSecretName(caSecret, one) == CaSecretName(caSecret, other) <==> one == other
  {
    var prefix := caSecret.name + "-";
    assert CaSecretName(caSecret, one)[|prefix|..] == one;
    assert CaSecretName(caSecret, other)[|prefix|..] == other;
  }

  // ------------------------------------------------------------------ names of two kinds

  const PASSWORD_SUFFIX := "-truststore-password"

  predicate EndsWith(s: string, suffix: string) {
    |suffix| <= |s| && s[|s| - |suffix|..] == suffix
  }

  /** A CA secret can bear the name of some password secret exactly when its name ends like one. */
  lemma NamesClashExactly(name: string)
    ensures EndsWith(name, PASSWORD_SUFFIX) <==> exists rootName :: PasswordSecretName(rootName) == name
  {
    if EndsWith(name, PASSWORD_SUFFIX) {
      var rootName := name[..|name| - |PASSWORD_SUFFIX|];
      assert PasswordSecretName(rootName) == name;
    }
    if exists rootName :: PasswordSecretName(rootName) == name {
      var rootName :| PasswordSecretName(rootName) == name;
      assert name[|name| - |PASSWORD_SUFFIX|..] == PASSWORD_SUFFIX;
    }
  }

  lemma SuffixInjective(a: string, b: string)
    requires PasswordSecretName(a) == PasswordSecretName(b)
    ensures a == b
  {
    assert a == PasswordSecretName(a)[..|PasswordSecretName(a)| - |PASSWORD_SUFFIX|];
    assert b == PasswordSecretName(b)[..|PasswordSecretName(b)| - |PASSWORD_SUFFIX|];
  }

  /** The unit some number of times, and then the tail. */
  predicate Repeats(s: string, unit: string, tail: string)
    decreases |s|
  {
    s == tail || (0 < |unit| <= |s| && s[..|unit|] == unit && Repeats(s[|unit|..], unit, tail))
  }

  /** What goes round: p before s is s before q exactly when p and q are rotations of each other, and s repeats p. */
  lemma {:induction false} RotationFound(p: string, s: string, q: string) returns (tail: string)
    requires p + s == s + q && |p| > 0
    ensures |tail| < |p| && Repeats(s, p, tail) && p == tail + q[..|q| - |tail|] && q == q[..|q| - |tail|] + tail
    decreases |s|
  {
    assert |p| == |q|;
    if |s| < |p| {
      tail := s;
      assert (p + s)[..|p|] == (s + q)[..|p|];
      assert (p + s)[|p|..] == (s + q)[|p|..];
    } else {
      var rest := s[|p|..];
      assert s[..|p|] == (s + q)[..|p|] == p;
      assert s == p + rest;
      assert (p + s)[|p|..] == s && (s + q)[|p|..] == rest + q;
      tail := RotationFound(p, rest, q);
    }
  }

  lemma {:induction false} RotationGoesRound(p: string, s: string, q: string, tail: string)
    requires |p| > 0 && Repeats(s, p, tail) && p + tail == tail + q
    ensures p + s == s + q
    decreases |s|
  {
    if s != tail {
      var rest := s[|p|..];
      RotationGoesRound(p, rest, q, tail);
      assert s == p + rest;
      assert p + (p + rest) == p + (rest + q);
    }
  }

  /** Of two words without a dash, the rotations of "-one-two" that end in a dash are "one-two-" and "two-one-". */
  lemma DashRotations(prefix: string, s: string, one: string, two: string) returns (tail: string)
    requires '-' !in one && '-' !in two
    requires prefix + "-" + s == s + ("-" + one + "-" + two)
    ensures Repeats(s, prefix + "-", tail)
    ensures || (prefix == one + "-" + two && tail == one + "-" + two)
            || (prefix == two + "-" + one && tail == two)
  {
    var p, q := prefix + "-", "-" + one + "-" + two;
    tail := RotationFound(p, s, q);
    var cut := |q| - |tail|;
    assert q[cut - 1] == p[|p| - 1] == '-';
    assert q[0] == '-' && q[|one| + 1] == '-';
    forall j | 1 <= j <= |one|
      ensures q[j] != '-'
    {
      assert q[j] == one[j - 1];
    }
    forall j | |one| + 2 <= j < |q|
      ensures q[j] != '-'
    {
      assert q[j] == two[j - |one| - 2];
    }
    assert cut - 1 == 0 || cut - 1 == |one| + 1;
    assert prefix == p[..|p| - 1] && tail == q[cut..];
    if cut == 1 {
      assert q[cut..] == one + "-" + two && q[..cut] == "-";
    } else {
      assert q[cut..] == two && q[..cut] == "-" + one + "-";
      assert p == two + "-" + one + "-";
    }
  }

  /** The two ways in which a name can be the same with the prefix in front and with "-one-two" behind. */
  predicate GoesRound(prefix: string, s: string, one: string, two: string) {
    || (prefix == one + "-" + two && Repeats(s, prefix + "-", prefix))
    || (prefix == two + "-" + one && Repeats(s, prefix + "-", two))
  }

  lemma GoesRoundExactly(prefix: string, s: string, one: string, two: string)
    requires '-' !in one && '-' !in two
    ensures prefix + "-" + s == s + ("-" + one + "-" + two) <==> GoesRound(prefix, s, one, two)
  {
    var p, q := prefix + "-", "-" + one + "-" + two;
    if p + s == s + q {
      var tail := DashRotations(prefix, s, one, two);
    }
    if prefix == one + "-" + two && Repeats(s, p, prefix) {
      assert p + prefix == prefix + q;
      RotationGoesRound(p, s, q, prefix);
    }
    if prefix == two + "-" + one && Repeats(s, p, two) {
      assert p + two == two + q;
      RotationGoesRound(p, s, q, two);
    }
  }

  /** The CA secret and the password secret of one root bear the same name exactly if the CA secret is configured as
      "truststore-password" or "password-truststore" and the name of the root repeats that. */
  predicate OwnNamesClash(caSecretName: string, rootName: string) {
    GoesRound(caSecretName, rootName, "truststore", "password")
  }

  lemma OwnNamesClashExactly(caSecret: CASecret, rootName: string)
    ensures CaSecretName(caSecret, rootName) == PasswordSecretName(rootName) <==> OwnNamesClash(caSecret.name, rootName)
  {
    GoesRoundExactly(caSecret.name, rootName, "truststore", "password");
    assert PASSWORD_SUFFIX == "-" + "truststore" + "-" + "password";
  }
}
