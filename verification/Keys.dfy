/** Idempotency keys: the execution id, the activity name and the attempt, joined by dashes. */
module Keys {
  import opened Models

  function Digit(d: nat): char
    requires d < 10
  {
    '0' + d as char
  }

  /** What the `%d` verb prints for a natural number. */
  function Decimal(n: nat): string {
    if n < 10 then [Digit(n)] else Decimal(n / 10) + [Digit(n % 10)]
  }

  function Key(exec: string, name: string, attempt: nat): string {
    exec + "-" + name + "-" + Decimal(attempt)
  }

  /** The position of the last dash, if there is one. */
  function LastDash(s: string): (r: Option<nat>)
    ensures r.Some? ==> r.value < |s| && s[r.value] == '-' && '-' !in s[r.value + 1..]
    ensures r.None? ==> '-' !in s
  {
    if s == "" then None
    else if s[|s| - 1] == '-' then Some(|s| - 1)
    else
      var r := LastDash(s[..|s| - 1]);
      assert s == s[..|s| - 1] + [s[|s| - 1]];
      assert r.Some? ==> s[r.value + 1..] == s[..|s| - 1][r.value + 1..] + [s[|s| - 1]];
      r
  }

  function ParseDecimal(s: string): nat {
    if s == "" then 0
    else
      var c := s[|s| - 1];
      10 * ParseDecimal(s[..|s| - 1]) + (if '0' <= c <= '9' then (c - '0') as nat else 0)
  }

  /** Splits a key into its parts, for execution ids of length `idLength`. */
  function Decode(s: string, idLength: nat): Option<(string, string, nat)> {
    match LastDash(s)
    case None => None
    case Some(d) =>
      if idLength + 1 <= d then Some((s[..idLength], s[idLength + 1..d], ParseDecimal(s[d + 1..]))) else None
  }

  lemma {:induction false} DecimalRoundTrip(n: nat)
    ensures ParseDecimal(Decimal(n)) == n
    ensures '-' !in Decimal(n)
  {
    if n >= 10 {
      DecimalRoundTrip(n / 10);
      var s := Decimal(n);
      assert s[..|s| - 1] == Decimal(n / 10);
    }
  }

  lemma {:induction false} LastDashOf(prefix: string, suffix: string)
    requires '-' !in suffix
    ensures LastDash(prefix + "-" + suffix) == Some(|prefix|)
  {
    var s := prefix + "-" + suffix;
    assert s[|prefix|] == '-';
    assert s[|prefix| + 1..] == suffix;
  }

  /** The decoder recovers every part of a key, whatever dashes and digits the name holds. */
  lemma {:induction false} DecodeInvertsKey(exec: string, name: string, attempt: nat)
    ensures Decode(Key(exec, name, attempt), |exec|) == Some((exec, name, attempt))
  {
    DecimalRoundTrip(attempt);
    var head := exec + "-" + name;
    LastDashOf(head, Decimal(attempt));
    var s := Key(exec, name, attempt);
    assert s == head + "-" + Decimal(attempt);
    assert s[..|exec|] == exec;
    assert s[|exec| + 1..|head|] == name;
    assert s[|head| + 1..] == Decimal(attempt);
  }

  /** Two keys are equal only if execution, name and attempt are: no two rows collide by accident. */
  lemma {:induction false} KeyInjective(exec: string, name: string, attempt: nat, exec': string, name': string,
      attempt': nat)
    requires |exec| == |exec'|
    requires Key(exec, name, attempt) == Key(exec', name', attempt')
    ensures exec == exec' && name == name' && attempt == attempt'
  {
    DecodeInvertsKey(exec, name, attempt);
    DecodeInvertsKey(exec', name', attempt');
  }

  /** The key alone does not say where the id ends: part of a longer id can be read as part of the name. */
  lemma {:induction false} KeyNeedsFixedLengthIds(exec: string, pad: string, name: string, attempt: nat)
    ensures Key(exec, pad + "-" + name, attempt) == Key(exec + "-" + pad, name, attempt)
  {
    assert exec + "-" + (pad + "-" + name) == (exec + "-" + pad) + "-" + name;
  }

  function Dashes(n: nat): (s: string)
    ensures |s| == n
  {
    seq(n, _ => '-')
  }

  ghost predicate KeysTellIds(m: nat, n: nat) {
    forall exec: string, exec': string, name: string, name': string, a: nat, a': nat |
        |exec| == m && |exec'| == n && Key(exec, name, a) == Key(exec', name', a') ::
      exec == exec' && name == name' && a == a'
  }

  /** Keys of ids of two lengths tell the ids apart if and only if it is one length. */
  lemma {:induction false} KeysNeedOneLength(m: nat, n: nat)
    ensures KeysTellIds(m, n) <==> m == n
  {
    hide Key;
    if m == n {
      forall exec: string, exec': string, name: string, name': string, a: nat, a': nat |
        |exec| == m && |exec'| == n && Key(exec, name, a) == Key(exec', name', a')
        ensures exec == exec' && name == name' && a == a'
      {
        KeyInjective(exec, name, a, exec', name', a');
      }
    } else if m < n {
      var pad := Dashes(n - m - 1);
      KeyNeedsFixedLengthIds(Dashes(m), pad, "", 1);
      assert |Dashes(m) + "-" + pad| == n;
    } else {
      var pad := Dashes(m - n - 1);
      KeyNeedsFixedLengthIds(Dashes(n), pad, "", 1);
      assert |Dashes(n) + "-" + pad| == m;
    }
  }

  /** The literal suffix used for first compensation attempts is the general form at attempt 1. */
  lemma {:induction false} LiteralFirstAttempt(exec: string, name: string)
    ensures exec + "-" + name + "-1" == Key(exec, name, 1)
  {
    assert Decimal(1) == "1";
  }
}
